/** What an NVM report means (l850_cell.c): the accepted texts, whatever the order of their
    lines, their blanks, line ends and numeral forms, and the requests they stand for. */
module LockReports {
  import opened Common
  import opened CText
  import opened Numerals
  import opened TextForms
  import opened EarfcnTable
  import opened LockTypes
  import opened LockGrammar

  /** What one line contributes: a number for a key, or nothing that can be used. */
  datatype Claim = Sets(key: nat, number: nat) | Unusable

  function ClaimOf(line: string): (c: Claim)
    ensures c.Sets? ==> c.key < KEYS
  {
    if !IsAssignment(line) || KeyIndex(KeyOf(line), 0) == KEYS || Unsigned(ValueOf(line)).None? then Unusable
    else Sets(KeyIndex(KeyOf(line), 0), Unsigned(ValueOf(line)).value)
  }

  /** The claims of the lines that are not blank. */
  function Claims(lines: seq<string>): seq<Claim> {
    if lines == [] then []
    else if Cleaned(lines[0]) == "" then Claims(lines[1..])
    else [ClaimOf(Cleaned(lines[0]))] + Claims(lines[1..])
  }

  ghost function Expected(t: Tuple): multiset<Claim> {
    multiset{Sets(0, t.frequency), Sets(1, t.rat), Sets(2, t.pci), Sets(3, t.bandInfo), Sets(4, t.interFrequency)}
  }

  /** The lines that are not blank give each component of the tuple once, in any order. */
  ghost predicate Renders(lines: seq<string>, t: Tuple) {
    multiset(Claims(lines)) == Expected(t)
  }

  // ----- the loop accepts exactly the renderings --------------------------------------------------------

  function Component(t: Tuple, k: nat): nat {
    match k
    case 0 => t.frequency
    case 1 => t.rat
    case 2 => t.pci
    case 3 => t.bandInfo
    case _ => t.interFrequency
  }

  function TakeClaim(values: Values, c: Claim): (r: Reading<Values>)
    requires FiveOf(values)
    ensures r.Read? ==> FiveOf(r.value)
  {
    if c.Sets? && c.key < KEYS && values[c.key].None? then Read(values[c.key := Some(c.number)]) else Rejected(Malformed)
  }

  /** The loop over claims in place of texts. */
  function TakeClaims(values: Values, claims: seq<Claim>): (r: Reading<Values>)
    requires FiveOf(values)
    ensures r.Read? ==> FiveOf(r.value)
    decreases |claims|
  {
    if claims == [] then Read(values)
    else
      var next := TakeClaim(values, claims[0]);
      if next.Rejected? then next else TakeClaims(next.value, claims[1..])
  }

  lemma RawIsClaim(values: Values, raw: string)
    requires FiveOf(values)
    ensures TakeRaw(values, raw) == if Cleaned(raw) == "" then Read(values) else TakeClaim(values, ClaimOf(Cleaned(raw)))
  {
  }

  lemma {:induction false} LinesAreClaims(values: Values, lines: seq<string>)
    requires FiveOf(values)
    ensures TakeLines(values, lines) == TakeClaims(values, Claims(lines))
    decreases |lines|
  {
    if lines != [] {
      RawIsClaim(values, lines[0]);
      var next := TakeRaw(values, lines[0]);
      if next.Read? { LinesAreClaims(next.value, lines[1..]); }
    }
  }

  /** The claims that would fill the free places from k on with the tuple's components. */
  ghost function Gaps(values: Values, t: Tuple, k: nat): multiset<Claim>
    requires FiveOf(values) && k <= KEYS
    decreases KEYS - k
  {
    if k == KEYS then multiset{}
    else if values[k].None? then multiset{Sets(k, Component(t, k))} + Gaps(values, t, k + 1)
    else Gaps(values, t, k + 1)
  }

  lemma {:induction false} GapFilled(values: Values, t: Tuple, k: nat, j: nat)
    requires FiveOf(values) && k < KEYS && values[k].None? && j <= KEYS
    ensures Gaps(values, t, j) ==
            Gaps(values[k := Some(Component(t, k))], t, j) + if j <= k then multiset{Sets(k, Component(t, k))} else multiset{}
    decreases KEYS - j
  {
    if j < KEYS { GapFilled(values, t, k, j + 1); }
  }

  lemma {:induction false} InGaps(values: Values, t: Tuple, c: Claim, j: nat)
    requires FiveOf(values) && j <= KEYS
    ensures c in Gaps(values, t, j) <==> c.Sets? && j <= c.key < KEYS && values[c.key].None? && c.number == Component(t, c.key)
    decreases KEYS - j
  {
    if j < KEYS { InGaps(values, t, c, j + 1); }
  }

  ghost predicate Full(values: Values, t: Tuple) {
    FiveOf(values) && forall k | 0 <= k < KEYS :: values[k] == Some(Component(t, k))
  }

  /** What is filled agrees with the tuple. */
  ghost predicate Agrees(values: Values, t: Tuple) {
    FiveOf(values) && forall k | 0 <= k < KEYS && values[k].Some? :: values[k] == Some(Component(t, k))
  }

  lemma {:induction false} PlacesKept(values: Values, claims: seq<Claim>, k: nat)
    requires FiveOf(values) && k < KEYS && values[k].Some? && TakeClaims(values, claims).Read?
    ensures TakeClaims(values, claims).value[k] == values[k]
    decreases |claims|
  {
    if claims != [] { PlacesKept(TakeClaim(values, claims[0]).value, claims[1..], k); }
  }

  lemma {:induction false} NoGaps(values: Values, t: Tuple, j: nat)
    requires Full(values, t) && j <= KEYS
    ensures Gaps(values, t, j) == multiset{}
    decreases KEYS - j
  {
    if j < KEYS { NoGaps(values, t, j + 1); }
  }

  lemma GapsDecide(values: Values, t: Tuple)
    requires Agrees(values, t)
    ensures Gaps(values, t, 0) == multiset{} <==> Full(values, t)
  {
    if Full(values, t) {
      NoGaps(values, t, 0);
    } else {
      var k :| 0 <= k < KEYS && values[k].None?;
      InGaps(values, t, Sets(k, Component(t, k)), 0);
    }
  }

  /** The table that the claims leave is the whole tuple. */
  ghost predicate Completes(values: Values, claims: seq<Claim>, t: Tuple)
    requires FiveOf(values)
  {
    TakeClaims(values, claims).Read? && Full(TakeClaims(values, claims).value, t)
  }

  lemma WrongClaim(values: Values, claims: seq<Claim>, t: Tuple)
    requires Agrees(values, t) && claims != [] && claims[0] !in Gaps(values, t, 0)
    ensures !Completes(values, claims, t)
  {
    var c := claims[0];
    InGaps(values, t, c, 0);
    if TakeClaims(values, claims).Read? { PlacesKept(TakeClaim(values, c).value, claims[1..], c.key); }
  }

  lemma RightClaim(values: Values, c: Claim, t: Tuple)
    requires Agrees(values, t) && c in Gaps(values, t, 0)
    ensures TakeClaim(values, c).Read? && Agrees(TakeClaim(values, c).value, t)
    ensures Gaps(values, t, 0) == Gaps(TakeClaim(values, c).value, t, 0) + multiset{c}
  {
    InGaps(values, t, c, 0);
    GapFilled(values, t, c.key, 0);
  }

  lemma FirstCounts(c: Claim, rest: seq<Claim>, gaps: multiset<Claim>)
    ensures multiset([c] + rest) == gaps + multiset{c} <==> multiset(rest) == gaps
    ensures c in multiset([c] + rest)
  {
    assert multiset([c] + rest) == multiset(rest) + multiset{c};
    assert (gaps + multiset{c}) - multiset{c} == gaps;
    assert (multiset(rest) + multiset{c}) - multiset{c} == multiset(rest);
  }

  /** Reading on from a partial table ends with the whole tuple exactly when the remaining
      claims are its gaps. */
  lemma {:induction false} ClaimsFillGaps(values: Values, claims: seq<Claim>, t: Tuple)
    requires Agrees(values, t)
    ensures Completes(values, claims, t) <==> multiset(claims) == Gaps(values, t, 0)
    decreases |claims|
  {
    if claims == [] {
      GapsDecide(values, t);
    } else {
      var c, rest := claims[0], claims[1..];
      assert claims == [c] + rest;
      if c in Gaps(values, t, 0) {
        RightClaim(values, c, t);
        var next := TakeClaim(values, c).value;
        FirstCounts(c, rest, Gaps(next, t, 0));
        ClaimsFillGaps(next, rest, t);
      } else {
        WrongClaim(values, claims, t);
        FirstCounts(c, rest, multiset{});
      }
    }
  }

  lemma FullIsTuple(values: Values, t: Tuple)
    requires FiveOf(values)
    ensures Full(values, t) <==> Complete(values) && TupleOf(values) == t
  {
    if Full(values, t) {
      assert values[0] == Some(Component(t, 0)) && values[1] == Some(Component(t, 1)) && values[2] == Some(Component(t, 2))
             && values[3] == Some(Component(t, 3)) && values[4] == Some(Component(t, 4));
    }
  }

  lemma AllGaps(t: Tuple)
    ensures Gaps(Nothing(), t, 0) == Expected(t)
  {
    assert Gaps(Nothing(), t, 4) == multiset{Sets(4, t.interFrequency)};
    assert Gaps(Nothing(), t, 3) == multiset{Sets(3, t.bandInfo)} + Gaps(Nothing(), t, 4);
    assert Gaps(Nothing(), t, 2) == multiset{Sets(2, t.pci)} + Gaps(Nothing(), t, 3);
    assert Gaps(Nothing(), t, 1) == multiset{Sets(1, t.rat)} + Gaps(Nothing(), t, 2);
    assert Gaps(Nothing(), t, 0) == multiset{Sets(0, t.frequency)} + Gaps(Nothing(), t, 1);
  }

  /** The five numbers of a report are read exactly when its lines render them. */
  lemma TupleReadIff(lines: seq<string>, t: Tuple)
    ensures var values := TakeLines(Nothing(), lines);
            values.Read? && Complete(values.value) && TupleOf(values.value) == t <==> Renders(lines, t)
  {
    LinesAreClaims(Nothing(), lines);
    ClaimsFillGaps(Nothing(), Claims(lines), t);
    AllGaps(t);
    var values := TakeLines(Nothing(), lines);
    if values.Read? { FullIsTuple(values.value, t); }
  }

  lemma RenderingParses(lines: seq<string>, t: Tuple)
    requires Renders(lines, t)
    ensures ParseLines(lines) == StateOf(t)
  {
    TupleReadIff(lines, t);
    var values := TakeLines(Nothing(), lines).value;
    assert values[0].Some?;
  }

  lemma ParsedIsRendering(lines: seq<string>) returns (t: Tuple)
    requires ParseLines(lines).Read?
    ensures Renders(lines, t) && StateOf(t) == ParseLines(lines)
  {
    t := TupleOf(TakeLines(Nothing(), lines).value);
    TupleReadIff(lines, t);
  }

  predicate Bounded(response: string) {
    response != "" && |response| <= NVM_MAX_RESPONSE && NUL !in response
  }

  /** A text is accepted as a state exactly when it is within bounds and its lines render a
      tuple of that state. */
  lemma AcceptedIff(response: string, state: LockState)
    ensures ParseNvm(response) == Read(state) <==>
            Bounded(response) && exists t :: Renders(Split(response, '\n'), t) && StateOf(t) == Read(state)
  {
    var lines := Split(response, '\n');
    if Bounded(response) {
      if ParseLines(lines).Read? { var t := ParsedIsRendering(lines); }
      forall t | Renders(lines, t) ensures StateOf(t) == ParseLines(lines) {
        RenderingParses(lines, t);
      }
    }
  }

  /** Whatever tuple the modem stores for a valid request, any text that renders it is read as
      a state that matches this request and no other valid one. */
  lemma RequestRoundTrip(request: Request, t: Tuple, response: string, other: Request)
    requires ValidRequest(request) && ValidRequest(other) && Describes(t, request)
    requires Bounded(response) && Renders(Split(response, '\n'), t)
    ensures ParseNvm(response).Read? && (StateMatches(ParseNvm(response).value, other) <==> other == request)
  {
    ReadMatchesIff(t, request);
    ReadMatchesIff(t, other);
    AcceptedIff(response, StateOf(t).value);
    OneRequestPerState(response, request);
    OneRequestPerState(response, other);
  }

  // ----- the forms of a line -----------------------------------------------------------------------------------

  lemma KeyChars(k: nat)
    ensures Solid(Key(k)) && '=' !in Key(k) && '\n' !in Key(k) && NUL !in Key(k) && |Key(k)| <= 23
  {
  }

  lemma KeysDiffer(k: nat)
    requires k < KEYS
    ensures KeyIndex(Key(k), 0) == k
  {
    assert Key(0)[0] == 'f' && Key(1)[0] == 'r' && Key(2)[0] == 'p' && Key(3)[0] == 'b' && Key(4)[0] == 'i';
  }

  lemma CutAtSign(left: string, right: string)
    requires '=' !in left && '=' !in right
    ensures var line := left + "=" + right;
            IsAssignment(line) && KeyOf(line) == Trim(left) && ValueOf(line) == Trim(right)
  {
    var line := left + "=" + right;
    FindAt(left, right, '=');
    assert line[..|left|] == left && line[|left| + 1..] == right;
  }

  lemma SidesTrim(k: nat, numeral: string, b: string, c: string)
    requires k < KEYS && AllBlank(b) && AllBlank(c) && Unsigned(numeral).Some?
    ensures Trim(Key(k) + b) == Key(k) && Trim(c + numeral) == numeral
    ensures '=' !in Key(k) + b && '=' !in c + numeral
  {
    KeyChars(k);
    NumberChars(numeral);
    assert Key(k) + b == "" + Key(k) + b && c + numeral == c + numeral + "";
    TrimBlanks("", Key(k), b);
    TrimBlanks(c, numeral, "");
  }

  /** Key, equals sign and numeral with blanks on both sides of the sign. */
  lemma AssignmentClaims(k: nat, numeral: string, b: string, c: string)
    requires k < KEYS && AllBlank(b) && AllBlank(c) && Unsigned(numeral).Some?
    ensures ClaimOf(Key(k) + b + "=" + c + numeral) == Sets(k, Unsigned(numeral).value)
  {
    SidesTrim(k, numeral, b, c);
    CutAtSign(Key(k) + b, c + numeral);
    KeysDiffer(k);
    assert Key(k) + b + "=" + c + numeral == Key(k) + b + "=" + (c + numeral);
  }

  /** The ways to write a line: blank, or an assignment with blanks `a` to `d` around key and
      numeral, the numeral decimal or hexadecimal with any leading zeros; each with or without
      a carriage return. */
  datatype Form =
    | Empty(blanks: string, returned: bool)
    | Setting(key: nat, numeral: string, a: string, b: string, c: string, d: string, returned: bool)

  predicate FormOk(f: Form) {
    match f
    case Empty(blanks, _) => AllBlank(blanks)
    case Setting(key, numeral, a, b, c, d, _) =>
      key < KEYS && Unsigned(numeral).Some? && AllBlank(a) && AllBlank(b) && AllBlank(c) && AllBlank(d)
  }

  function Core(f: Form): string {
    if f.Empty? then "" else Key(f.key) + f.b + "=" + f.c + f.numeral
  }

  function LineEnd(returned: bool): string {
    if returned then "\r" else ""
  }

  function LineText(f: Form): string {
    if f.Empty? then f.blanks + LineEnd(f.returned) else f.a + Core(f) + f.d + LineEnd(f.returned)
  }

  function Texts(forms: seq<Form>): seq<string> {
    if forms == [] then [] else [LineText(forms[0])] + Texts(forms[1..])
  }

  /** What the lines set. */
  function Settings(forms: seq<Form>): seq<Claim> {
    if forms == [] then []
    else if forms[0].Empty? || Unsigned(forms[0].numeral).None? then Settings(forms[1..])
    else [Sets(forms[0].key, Unsigned(forms[0].numeral).value)] + Settings(forms[1..])
  }

  lemma EmptyCleans(f: Form)
    requires FormOk(f) && f.Empty?
    ensures Cleaned(LineText(f)) == ""
  {
    assert DropReturn(f.blanks + LineEnd(f.returned)) == f.blanks;
    TrimAllBlank(f.blanks);
  }

  lemma SettingCleans(f: Form)
    requires FormOk(f) && f.Setting?
    ensures Cleaned(LineText(f)) == Core(f) != ""
  {
    var core := Core(f);
    KeyChars(f.key);
    NumberChars(f.numeral);
    assert core[0] == Key(f.key)[0] && core[|core| - 1] == f.numeral[|f.numeral| - 1];
    assert DropReturn(LineText(f)) == f.a + core + f.d;
    TrimBlanks(f.a, core, f.d);
  }

  lemma {:induction false} FormsClaim(forms: seq<Form>)
    requires forall i | 0 <= i < |forms| :: FormOk(forms[i])
    ensures Claims(Texts(forms)) == Settings(forms)
  {
    if forms != [] {
      var f := forms[0];
      FormsClaim(forms[1..]);
      assert Texts(forms)[1..] == Texts(forms[1..]);
      if f.Empty? {
        EmptyCleans(f);
      } else {
        SettingCleans(f);
        AssignmentClaims(f.key, f.numeral, f.b, f.c);
      }
    }
  }

  predicate LineChar(c: char) {
    Blank(c) || c == '=' || c == '\r' || c == '_' || 'a' <= c <= 'z' || NumeralChar(c)
  }

  lemma TextChars(f: Form)
    requires FormOk(f)
    ensures '\n' !in LineText(f) && NUL !in LineText(f)
  {
    if f.Setting? {
      KeyLetters(f.key);
      NumberChars(f.numeral);
      assert forall i | 0 <= i < |Core(f)| :: LineChar(Core(f)[i]);
    }
    assert forall i | 0 <= i < |LineText(f)| :: LineChar(LineText(f)[i]);
  }

  lemma KeyLetters(k: nat)
    ensures forall i | 0 <= i < |Key(k)| :: LineChar(Key(k)[i])
  {
  }

  lemma {:induction false} TextsClean(forms: seq<Form>)
    requires forms != [] && forall i | 0 <= i < |forms| :: FormOk(forms[i])
    ensures Texts(forms) != [] && |Texts(forms)| == |forms|
    ensures forall i | 0 <= i < |forms| :: '\n' !in Texts(forms)[i]
    ensures NUL !in Join(Texts(forms), '\n')
  {
    TextChars(forms[0]);
    if |forms| > 1 {
      TextsClean(forms[1..]);
      assert Texts(forms)[1..] == Texts(forms[1..]);
    }
  }

  /** A report written in any of these forms, with blank lines between, is read as the state of
      its tuple. */
  lemma ReportTextParses(t: Tuple, forms: seq<Form>)
    requires forall i | 0 <= i < |forms| :: FormOk(forms[i])
    requires multiset(Settings(forms)) == Expected(t)
    ensures Texts(forms) != []
    ensures var response := Join(Texts(forms), '\n');
            |response| <= NVM_MAX_RESPONSE ==> Renders(Split(response, '\n'), t) && ParseNvm(response) == StateOf(t)
  {
    assert Sets(0, t.frequency) in Expected(t);
    assert Split("", '\n') == [""] && Claims([""]) == [];
    TextsClean(forms);
    JoinSplits(Texts(forms), '\n');
    FormsClaim(forms);
    RenderingParses(Texts(forms), t);
  }

  // ----- the plain report -----------------------------------------------------------------------------------

  /** Five lines with the keys as the modem writes them. */
  function PlainLines(t: Tuple): seq<string> {
    ["frequency=" + ToDecimal(t.frequency), "rat=" + ToDecimal(t.rat), "psc_or_pci=" + ToDecimal(t.pci),
     "band_info=" + ToDecimal(t.bandInfo), "inter_freq_lock_support=" + ToDecimal(t.interFrequency)]
  }

  predicate Fits(t: Tuple) {
    && t.frequency <= UINT32_MAX && t.rat <= UINT32_MAX && t.pci <= UINT32_MAX && t.bandInfo <= UINT32_MAX
    && t.interFrequency <= UINT32_MAX
  }

  lemma PlainLineClaims(k: nat, n: nat, line: string)
    requires k < KEYS && n <= UINT32_MAX && line == Key(k) + "=" + ToDecimal(n)
    ensures Cleaned(line) != "" && ClaimOf(Cleaned(line)) == Sets(k, n)
  {
    NumbersRoundTrip(n);
    var f := Setting(k, ToDecimal(n), "", "", "", "", false);
    assert LineText(f) == line;
    SettingCleans(f);
    AssignmentClaims(k, ToDecimal(n), "", "");
  }

  lemma {:induction false} EachClaims(lines: seq<string>, claims: seq<Claim>)
    requires |lines| == |claims|
    requires forall k | 0 <= k < |lines| :: Cleaned(lines[k]) != "" && ClaimOf(Cleaned(lines[k])) == claims[k]
    ensures Claims(lines) == claims
  {
    if lines != [] { EachClaims(lines[1..], claims[1..]); }
  }

  function AllSettings(t: Tuple): seq<Claim> {
    [Sets(0, t.frequency), Sets(1, t.rat), Sets(2, t.pci), Sets(3, t.bandInfo), Sets(4, t.interFrequency)]
  }

  lemma PlainLineIs(t: Tuple, k: nat)
    requires k < KEYS
    ensures PlainLines(t)[k] == Key(k) + "=" + ToDecimal(Component(t, k)) && AllSettings(t)[k] == Sets(k, Component(t, k))
  {
    KeyTexts();
  }

  lemma KeyTexts()
    ensures Key(0) + "=" == "frequency=" && Key(1) + "=" == "rat=" && Key(2) + "=" == "psc_or_pci="
    ensures Key(3) + "=" == "band_info=" && Key(4) + "=" == "inter_freq_lock_support="
  {
  }

  lemma PlainLinesClaim(t: Tuple)
    requires Fits(t)
    ensures Claims(PlainLines(t)) == AllSettings(t)
  {
    forall k | 0 <= k < KEYS ensures Cleaned(PlainLines(t)[k]) != "" && ClaimOf(Cleaned(PlainLines(t)[k])) == AllSettings(t)[k] {
      PlainLineIs(t, k);
      PlainLineClaims(k, Component(t, k), PlainLines(t)[k]);
    }
    EachClaims(PlainLines(t), AllSettings(t));
  }

  /** The report with its keys spelled out is read as the state of its numbers. */
  lemma PlainReportParses(t: Tuple)
    requires Fits(t)
    ensures ParseLines(PlainLines(t)) == StateOf(t)
  {
    PlainLinesClaim(t);
    assert multiset(AllSettings(t)) == Expected(t);
    RenderingParses(PlainLines(t), t);
  }
}
