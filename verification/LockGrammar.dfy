/** The lock grammar (l850_cell.c): the NVM report of the persisted lock, the command that
    sets it, and how both correspond to requests. */
module LockGrammar {
  import opened Common
  import opened CText
  import opened Numerals
  import opened EarfcnTable
  import opened LockTypes

  const NVM_MAX_RESPONSE: nat := 512
  const COMMAND_MAX: nat := 96
  const KEYS: nat := 5
  const UINT8_MAX: nat := 255
  const RAT_LTE: nat := 3

  datatype Fault = Empty | Oversized | Malformed | Sentinel | OutOfRange
  datatype Reading<T> = Rejected(why: Fault) | Read(value: T)

  function Key(k: nat): string {
    match k
    case 0 => "frequency"
    case 1 => "rat"
    case 2 => "psc_or_pci"
    case 3 => "band_info"
    case _ => "inter_freq_lock_support"
  }

  /** Index of a key, or the number of keys. */
  function KeyIndex(key: string, k: nat): (i: nat)
    requires k <= KEYS
    ensures k <= i <= KEYS && (i < KEYS ==> Key(i) == key) && forall j | k <= j < i :: Key(j) != key
    decreases KEYS - k
  {
    if k == KEYS || Key(k) == key then k else KeyIndex(key, k + 1)
  }

  type Values = seq<Option<nat>>

  predicate FiveOf(values: Values) {
    |values| == KEYS
  }

  // ----- the report ---------------------------------------------------------------------------------

  predicate IsAssignment(line: string) {
    var i := Find(line, '=');
    i < |line| && '=' !in line[i + 1..]
  }

  function KeyOf(line: string): string {
    Trim(line[..Find(line, '=')])
  }

  function ValueOf(line: string): string
    requires IsAssignment(line)
  {
    Trim(line[Find(line, '=') + 1..])
  }

  function Assign(values: Values, key: string, text: string): (r: Reading<Values>)
    requires FiveOf(values)
    ensures r.Read? ==> FiveOf(r.value)
  {
    var k := KeyIndex(key, 0);
    if k == KEYS || values[k].Some? || Unsigned(text).None? then Rejected(Malformed)
    else Read(values[k := Unsigned(text)])
  }

  function TakeRaw(values: Values, raw: string): (r: Reading<Values>)
    requires FiveOf(values)
    ensures r.Read? ==> FiveOf(r.value)
  {
    var line := Cleaned(raw);
    if line == "" then Read(values)
    else if !IsAssignment(line) then Rejected(Malformed)
    else Assign(values, KeyOf(line), ValueOf(line))
  }

  function TakeLines(values: Values, lines: seq<string>): (r: Reading<Values>)
    requires FiveOf(values)
    ensures r.Read? ==> FiveOf(r.value)
    decreases |lines|, 0
  {
    if lines == [] then Read(values) else AfterFirst(TakeRaw(values, lines[0]), lines[1..])
  }

  function AfterFirst(next: Reading<Values>, rest: seq<string>): (r: Reading<Values>)
    requires next.Read? ==> FiveOf(next.value)
    ensures r.Read? ==> FiveOf(r.value)
    decreases |rest|, 1
  {
    if next.Rejected? then next else TakeLines(next.value, rest)
  }

  function Nothing(): Values {
    seq(KEYS, _ => None)
  }

  /** The five numbers of a complete report. */
  datatype Tuple = Tuple(frequency: nat, rat: nat, pci: nat, bandInfo: nat, interFrequency: nat)

  function TupleOf(values: Values): Tuple
    requires FiveOf(values) && forall k | 0 <= k < KEYS :: values[k].Some?
  {
    Tuple(values[0].value, values[1].value, values[2].value, values[3].value, values[4].value)
  }

  predicate IsClear(t: Tuple) {
    && t.frequency == CLEAR_FREQUENCY && t.pci == PCI_WILDCARD
    && (t.rat == RAT_LTE || t.rat == UINT8_MAX) && (t.bandInfo == 0 || t.bandInfo == UINT8_MAX)
  }

  function StateOf(t: Tuple): Reading<LockState> {
    var band := EarfcnToBand(t.frequency);
    if t.pci > PCI_WILDCARD || t.interFrequency > 1 then Rejected(OutOfRange)
    else if t.interFrequency == 0 then
      if IsClear(t) then Read(LockState(false, false, CLEAR_FREQUENCY, PCI_WILDCARD, 0)) else Rejected(Malformed)
    else if t.rat != RAT_LTE || band.None? || (t.pci > PCI_MAX && t.pci != PCI_WILDCARD) then
      Rejected(if t.frequency == CLEAR_FREQUENCY || t.pci == UINT32_MAX then Sentinel else OutOfRange)
    else if t.bandInfo != 0 && t.bandInfo != UINT8_MAX && t.bandInfo != band.value then Rejected(OutOfRange)
    else Read(LockState(true, t.pci != PCI_WILDCARD, t.frequency, t.pci, band.value))
  }

  predicate Complete(values: Values)
    requires FiveOf(values)
  {
    forall k | 0 <= k < KEYS :: values[k].Some?
  }

  function Conclude(values: Values): Reading<LockState>
    requires FiveOf(values)
  {
    if forall k | 0 <= k < KEYS :: values[k].None? then Rejected(Empty)
    else if !Complete(values) then Rejected(Malformed)
    else StateOf(TupleOf(values))
  }

  function ParseLines(lines: seq<string>): Reading<LockState> {
    var values := TakeLines(Nothing(), lines);
    if values.Rejected? then Rejected(values.why) else Conclude(values.value)
  }

  function ParseNvm(response: string): Reading<LockState> {
    if response == "" then Rejected(Empty)
    else if |response| > NVM_MAX_RESPONSE then Rejected(Oversized)
    else if NUL in response then Rejected(Malformed)
    else ParseLines(Split(response, '\n'))
  }

  // ----- requests and states --------------------------------------------------------------------------

  predicate ValidRequest(request: Request) {
    request.SetLock? ==> EarfcnToBand(request.earfcn).Some? && (request.pci.Some? ==> request.pci.value <= PCI_MAX)
  }

  /** Tuples that report exactly this request; rat and band info leave the modem a choice. */
  predicate Describes(t: Tuple, request: Request) {
    match request
    case ClearLock =>
      && t.interFrequency == 0 && t.frequency == 65535 && t.pci == 65535
      && (t.rat == 3 || t.rat == 255) && (t.bandInfo == 0 || t.bandInfo == 255)
    case SetLock(earfcn, pci) =>
      && t.interFrequency == 1 && t.rat == 3 && t.frequency == earfcn
      && t.pci == (if pci.Some? then pci.value else 65535)
      && (t.bandInfo == 0 || t.bandInfo == 255 || Some(t.bandInfo) == EarfcnToBand(earfcn))
  }

  /** A tuple is read as a state that matches a valid request exactly when it describes it. */
  lemma ReadMatchesIff(t: Tuple, request: Request)
    requires ValidRequest(request)
    ensures StateOf(t).Read? && StateMatches(StateOf(t).value, request) <==> Describes(t, request)
  {
    LookupBounds(t.frequency);
  }

  function RequestOf(state: LockState): Request {
    if !state.enabled then ClearLock else SetLock(state.earfcn, if state.hasPci then Some(state.pci) else None)
  }

  /** Every state the parser can return matches one valid request and no other. */
  lemma OneRequestPerState(response: string, request: Request)
    requires ParseNvm(response).Read? && ValidRequest(request)
    ensures ValidRequest(RequestOf(ParseNvm(response).value))
    ensures StateMatches(ParseNvm(response).value, request) <==> request == RequestOf(ParseNvm(response).value)
  {
    var values := TakeLines(Nothing(), Split(response, '\n')).value;
    var t := TupleOf(values);
    LookupBounds(t.frequency);
  }

  // ----- the set command ----------------------------------------------------------------------------------------

  const SET_PREFIX: string := "AT@SIC:FREQ_LOCK(0,3,"

  function PciOrWildcard(pci: Option<nat>): nat {
    if pci.Some? then pci.value else PCI_WILDCARD
  }

  function SetText(band: nat, earfcn: nat, pci: nat): string {
    SET_PREFIX + ToDecimal(band) + ",1," + ToDecimal(earfcn) + "," + ToDecimal(pci) + ")"
  }

  /** The builder refuses a channel without band, a PCI out of range and a buffer that does
      not hold the text with its terminator. */
  function BuildSet(earfcn: nat, pci: Option<nat>, size: nat): Option<string> {
    var band := EarfcnToBand(earfcn);
    if size == 0 || band.None? || (pci.Some? && pci.value > PCI_MAX) then None
    else
      var text := SetText(band.value, earfcn, PciOrWildcard(pci));
      if |text| >= size then None else Some(text)
  }

  lemma ShortNumber(n: nat)
    requires n < 100_000
    ensures |ToDecimal(n)| <= 5
  {
    assert Power10(5) == 100_000;
    DecimalLength(n, 5);
  }

  /** Every valid request has a command, and it fits the source's buffer. */
  lemma ValidRequestBuilds(earfcn: nat, pci: Option<nat>)
    ensures BuildSet(earfcn, pci, COMMAND_MAX).Some? <==> ValidRequest(SetLock(earfcn, pci))
  {
    if ValidRequest(SetLock(earfcn, pci)) {
      LookupBounds(earfcn);
      ShortNumber(earfcn);
      ShortNumber(EarfcnToBand(earfcn).value);
      ShortNumber(PciOrWildcard(pci));
    }
  }

  // ----- reading a command back ----------------------------------------------------------------------------------

  const CLEAR_COMMAND: string := "AT@SIC:FREQ_LOCK(0,3,255,0,65535,65535)"
  const OPENING: string := "AT@SIC:FREQ_LOCK("

  /** What stands between the parentheses of a lock command, split at the commas. */
  function Arguments(command: string): Option<seq<string>> {
    if |command| <= |OPENING| || command[..|OPENING|] != OPENING || command[|command| - 1] != ')' then None
    else Some(Split(command[|OPENING|..|command| - 1], ','))
  }

  /** The arguments are numerals of these values. */
  predicate ArgumentsRead(command: string, values: seq<nat>) {
    && Arguments(command).Some? && |Arguments(command).value| == |values|
    && forall k | 0 <= k < |values| :: Unsigned(Arguments(command).value[k]) == Some(values[k])
  }

  function Pieces(band: nat, earfcn: nat, pci: nat): seq<string> {
    ["0", "3", ToDecimal(band), "1", ToDecimal(earfcn), ToDecimal(pci)]
  }

  lemma {:induction false} JoinStep(pieces: seq<string>, c: char)
    requires |pieces| > 1
    ensures Join(pieces, c) == pieces[0] + [c] + Join(pieces[1..], c)
  {
  }

  lemma SetTextJoins(band: nat, earfcn: nat, pci: nat)
    ensures SetText(band, earfcn, pci) == OPENING + Join(Pieces(band, earfcn, pci), ',') + ")"
  {
    var p := Pieces(band, earfcn, pci);
    JoinSix(p[0], p[1], p[2], p[3], p[4], p[5]);
    SetTextIs(p[2], p[4], p[5]);
  }

  lemma SetTextIs(band: string, earfcn: string, pci: string)
    ensures SET_PREFIX + band + ",1," + earfcn + "," + pci + ")" ==
            OPENING + ("0" + "," + "3" + "," + band + "," + "1" + "," + earfcn + "," + pci) + ")"
  {
    assert SET_PREFIX == OPENING + "0" + "," + "3" + ",";
    assert ",1," == "," + "1" + ",";
  }

  lemma JoinThree(a: string, b: string, c: string)
    ensures Join([a, b, c], ',') == a + "," + b + "," + c
  {
    JoinStep([a, b, c], ',');
    JoinStep([b, c], ',');
    assert [a, b, c][1..] == [b, c] && [b, c][1..] == [c];
  }

  lemma JoinSix(a: string, b: string, c: string, d: string, e: string, f: string)
    ensures Join([a, b, c, d, e, f], ',') == a + "," + b + "," + c + "," + d + "," + e + "," + f
  {
    JoinStep([a, b, c, d, e, f], ',');
    JoinStep([b, c, d, e, f], ',');
    JoinStep([c, d, e, f], ',');
    JoinThree(d, e, f);
    assert [a, b, c, d, e, f][1..] == [b, c, d, e, f] && [b, c, d, e, f][1..] == [c, d, e, f] && [c, d, e, f][1..] == [d, e, f];
  }

  lemma SetTextReads(band: nat, earfcn: nat, pci: nat)
    requires band <= UINT32_MAX && earfcn <= UINT32_MAX && pci <= UINT32_MAX
    ensures ArgumentsRead(SetText(band, earfcn, pci), [0, 3, band, 1, earfcn, pci])
  {
    var p := Pieces(band, earfcn, pci);
    SetTextJoins(band, earfcn, pci);
    DecimalReads(band);
    DecimalReads(earfcn);
    DecimalReads(pci);
    Enclosed(p, Join(p, ','), SetText(band, earfcn, pci));
    NumbersRoundTrip(band);
    NumbersRoundTrip(earfcn);
    NumbersRoundTrip(pci);
    SmallNumerals();
  }

  lemma SmallNumerals()
    ensures Unsigned("0") == Some(0) && Unsigned("1") == Some(1) && Unsigned("3") == Some(3)
  {
    NumbersRoundTrip(0);
    NumbersRoundTrip(1);
    NumbersRoundTrip(3);
    assert ToDecimal(0) == "0" && ToDecimal(1) == "1" && ToDecimal(3) == "3";
  }

  /** The command for a valid set request enables the lock on the table's band, the requested
      channel and the requested cell identity, or the wildcard 65535 without one. */
  lemma CommandSays(earfcn: nat, pci: Option<nat>)
    requires ValidRequest(SetLock(earfcn, pci))
    ensures BuildSet(earfcn, pci, COMMAND_MAX).Some?
    ensures ArgumentsRead(BuildSet(earfcn, pci, COMMAND_MAX).value,
                          [0, 3, EarfcnToBand(earfcn).value, 1, earfcn, if pci.Some? then pci.value else 65535])
  {
    ValidRequestBuilds(earfcn, pci);
    LookupBounds(earfcn);
    SetTextReads(EarfcnToBand(earfcn).value, earfcn, PciOrWildcard(pci));
  }

  const CLEAR_PIECES: seq<string> := ["0", "3", "255", "0", "65535", "65535"]

  lemma ClearJoins()
    ensures Join(CLEAR_PIECES, ',') == "0,3,255,0,65535,65535"
  {
    JoinSix("0", "3", "255", "0", "65535", "65535");
  }

  lemma Enclosed(pieces: seq<string>, inner: string, text: string)
    requires pieces != [] && (forall k | 0 <= k < |pieces| :: ',' !in pieces[k])
    requires inner == Join(pieces, ',') && text == OPENING + inner + ")"
    ensures Arguments(text) == Some(pieces)
  {
    assert text[..|OPENING|] == OPENING && text[|OPENING|..|text| - 1] == inner;
    JoinSplits(pieces, ',');
  }

  lemma ClearNumerals()
    ensures Unsigned("255") == Some(255) && Unsigned("65535") == Some(65535)
  {
    NumbersRoundTrip(255);
    NumbersRoundTrip(65535);
    assert ToDecimal(255) == "255" && ToDecimal(65535) == "65535";
  }

  /** The clear command disables the lock; nothing else in it is a channel or an identity. */
  lemma ClearSays()
    ensures ArgumentsRead(CLEAR_COMMAND, [0, 3, 255, 0, 65535, 65535])
  {
    ClearArguments();
    AreNumerals(CLEAR_PIECES, [0, 3, 255, 0, 65535, 65535]);
  }

  lemma ClearArguments()
    ensures Arguments(CLEAR_COMMAND) == Some(CLEAR_PIECES)
  {
    ClearJoins();
    ClearIs("0,3,255,0,65535,65535");
    Enclosed(CLEAR_PIECES, "0,3,255,0,65535,65535", CLEAR_COMMAND);
  }

  lemma ClearIs(inner: string)
    requires inner == "0,3,255,0,65535,65535"
    ensures CLEAR_COMMAND == OPENING + inner + ")"
  {
  }

  lemma AreNumerals(pieces: seq<string>, values: seq<nat>)
    requires pieces == ["0", "3", "255", "0", "65535", "65535"] && values == [0, 3, 255, 0, 65535, 65535]
    ensures forall k | 0 <= k < |values| :: Unsigned(pieces[k]) == Some(values[k])
  {
    SmallNumerals();
    ClearNumerals();
  }

  function CommandFor(request: Request): Option<string> {
    match request
    case ClearLock => Some(CLEAR_COMMAND)
    case SetLock(earfcn, pci) => BuildSet(earfcn, pci, COMMAND_MAX)
  }

  /** The command determines the request: no two valid requests share one. */
  lemma CommandIsInjective(a: Request, b: Request)
    requires ValidRequest(a) && ValidRequest(b) && CommandFor(a) == CommandFor(b)
    ensures a == b
  {
    ClearSays();
    if a.SetLock? { CommandSays(a.earfcn, a.pci); }
    if b.SetLock? { CommandSays(b.earfcn, b.pci); }
    var args := Arguments(CommandFor(a).value).value;
    assert Unsigned(args[3]) == Some(if a.SetLock? then 1 else 0);
    assert Unsigned(args[3]) == Some(if b.SetLock? then 1 else 0);
    if a.SetLock? && b.SetLock? {
      assert Unsigned(args[4]) == Some(a.earfcn) && Unsigned(args[4]) == Some(b.earfcn);
      assert Unsigned(args[5]) == Some(if a.pci.Some? then a.pci.value else 65535);
      assert Unsigned(args[5]) == Some(if b.pci.Some? then b.pci.value else 65535);
    }
  }
}
