/** The XMCI cell scan (l850_cell.c) as functions of text: one line of fourteen numeric fields
    per cell, each possibly quoted, and at most one final "OK". */
module CellGrammar {
  import opened Common
  import opened CText
  import opened Numerals
  import opened EarfcnTable
  import opened LockTypes

  const PREFIX: string := "+XMCI:"
  const FIELD_COUNT: nat := 14
  const SIGNED_FIELD: nat := 11
  const MAX_RESPONSE: nat := 16384
  const MAX_RESULTS: nat := 64

  datatype Fault = Empty | Oversized | Malformed | UnsupportedType | Sentinel | OutOfRange | TooMany
  datatype Reading<T> = Rejected(why: Fault) | Read(value: T)

  // ----- fields ---------------------------------------------------------------------------------

  /** A token without quotes, or one pair of quotes around a token that is not padded. */
  function Unquoted(field: string): Option<string> {
    var t := Trim(field);
    if t == "" then None
    else if t[0] != '"' then if '"' in t then None else Some(t)
    else if |t| < 3 || t[|t| - 1] != '"' then None
    else
      var inner := t[1..|t| - 1];
      if '"' in inner || Blank(inner[0]) || Blank(inner[|inner| - 1]) then None else Some(inner)
  }

  /** All fields unquoted, if each can be. */
  function AllUnquoted(fields: seq<string>): Option<seq<string>> {
    if fields == [] then Some([])
    else
      var before, last := AllUnquoted(fields[..|fields| - 1]), Unquoted(fields[|fields| - 1]);
      if before.Some? && last.Some? then Some(before.value + [last.value]) else None
  }

  predicate AllNumbers(tokens: seq<string>) {
    && |tokens| == FIELD_COUNT
    && (forall i | 0 <= i < |tokens| && i != SIGNED_FIELD :: Unsigned(tokens[i]).Some?)
    && Signed(tokens[SIGNED_FIELD], true).Some?
  }

  function Num(tokens: seq<string>, i: nat): nat
    requires i < |tokens|
  {
    if Unsigned(tokens[i]).Some? then Unsigned(tokens[i]).value else 0
  }

  predicate InRange(tokens: seq<string>)
    requires AllNumbers(tokens)
  {
    var rssnr := Signed(tokens[SIGNED_FIELD], true).value;
    && Num(tokens, 1) <= 999 && Num(tokens, 2) <= 999 && Num(tokens, 3) <= 65535
    && (Num(tokens, 4) <= 0x0FFF_FFFF || Num(tokens, 4) == UINT32_MAX)
    && (Num(tokens, 7) <= 262143 || Num(tokens, 7) == UINT32_MAX)
    && (Num(tokens, 8) <= 254 || Num(tokens, 8) == UINT32_MAX)
    && Num(tokens, 9) <= 97 && Num(tokens, 10) <= 34 && -255 <= rssnr <= 255
    && (Num(tokens, 12) <= 1282 || Num(tokens, 12) == INT32_MAX) && Num(tokens, 13) <= 15
  }

  function CellOf(tokens: seq<string>): Reading<Cell>
    requires |tokens| == FIELD_COUNT
  {
    if !AllNumbers(tokens) then Rejected(Malformed)
    else if Num(tokens, 0) != 4 && Num(tokens, 0) != 5 then Rejected(UnsupportedType)
    else if Num(tokens, 5) == UINT32_MAX || Num(tokens, 6) == UINT32_MAX || Num(tokens, 9) == 255 || Num(tokens, 10) == 255 then
      Rejected(Sentinel)
    else
      var band := EarfcnToBand(Num(tokens, 6));
      if Num(tokens, 5) > PCI_MAX || band.None? || !InRange(tokens) then Rejected(OutOfRange)
      else Read(Cell(Num(tokens, 0) == 4, Num(tokens, 6), Num(tokens, 5), band.value,
                     Num(tokens, 9) - 141, Num(tokens, 10) * 5 - 195))
  }

  // ----- lines --------------------------------------------------------------------------------------

  predicate HasPrefix(line: string) {
    |line| >= |PREFIX| && line[..|PREFIX|] == PREFIX
  }

  function Body(line: string): string
    requires HasPrefix(line)
  {
    Trim(line[|PREFIX|..])
  }

  /** The splitter must find exactly fourteen fields, none of them empty. */
  function FieldsOf(line: string): Option<seq<string>> {
    if !HasPrefix(line) then None
    else
      var fields := Fields(Body(line));
      if FieldCount(fields, FIELD_COUNT) == FIELD_COUNT then Some(fields) else None
  }

  function CellLine(line: string): Reading<Cell> {
    var fields := FieldsOf(line);
    if fields.None? then Rejected(Malformed)
    else
      var tokens := AllUnquoted(fields.value);
      if tokens.None? || |tokens.value| != FIELD_COUNT then Rejected(Malformed) else CellOf(tokens.value)
  }

  datatype Scan = Scan(done: bool, serving: bool, cells: seq<Cell>)

  function AddCell(st: Scan, cell: Cell): Reading<Scan> {
    if cell.serving && st.serving then Rejected(Malformed)
    else Read(Scan(st.done, st.serving || cell.serving, st.cells + [cell]))
  }

  function TakeLine(st: Scan, line: string): Reading<Scan> {
    if line == "OK" then if st.done then Rejected(Malformed) else Read(st.(done := true))
    else if |st.cells| >= MAX_RESULTS then Rejected(TooMany)
    else if st.done then Rejected(Malformed)
    else
      var cell := CellLine(line);
      if cell.Rejected? then Rejected(cell.why) else AddCell(st, cell.value)
  }

  function TakeRaw(st: Scan, raw: string): Reading<Scan> {
    if Cleaned(raw) == "" then Read(st) else TakeLine(st, Cleaned(raw))
  }

  function TakeLines(st: Scan, lines: seq<string>): Reading<Scan>
    decreases |lines|, 0
  {
    if lines == [] then Read(st) else AfterFirst(TakeRaw(st, lines[0]), lines[1..])
  }

  function AfterFirst(next: Reading<Scan>, rest: seq<string>): Reading<Scan>
    decreases |rest|, 1
  {
    if next.Rejected? then next else TakeLines(next.value, rest)
  }

  const BEGIN: Scan := Scan(false, false, [])

  function ParseText(response: string): Reading<seq<Cell>> {
    if response == "" then Rejected(Empty)
    else if |response| > MAX_RESPONSE then Rejected(Oversized)
    else if NUL in response then Rejected(Malformed)
    else
      var st := TakeLines(BEGIN, Split(response, '\n'));
      if st.Rejected? then Rejected(st.why)
      else if st.value.cells == [] then Rejected(Empty)
      else Read(st.value.cells)
  }

  // ----- what an accepted scan guarantees ----------------------------------------------------------------

  ghost predicate CellFits(c: Cell) {
    && c.pci <= PCI_MAX && EarfcnToBand(c.earfcn) == Some(c.band)
    && -141 <= c.rsrpDbm <= -44 && -195 <= c.rsrqTenthsDb <= -25
  }

  /** Cells fit, there are at most 64, and the serving flag tells whether exactly one serves. */
  ghost predicate ScanFits(st: Scan) {
    && |st.cells| <= MAX_RESULTS
    && (forall i | 0 <= i < |st.cells| :: CellFits(st.cells[i]))
    && (st.serving <==> exists i | 0 <= i < |st.cells| :: st.cells[i].serving)
    && (forall i, j | 0 <= i < j < |st.cells| :: !(st.cells[i].serving && st.cells[j].serving))
  }

  lemma AddKeeps(st: Scan, cell: Cell)
    requires ScanFits(st) && CellFits(cell) && |st.cells| < MAX_RESULTS && AddCell(st, cell).Read?
    ensures ScanFits(AddCell(st, cell).value)
  {
    var cells := st.cells + [cell];
    if st.serving {
      var i :| 0 <= i < |st.cells| && st.cells[i].serving;
      assert cells[i].serving;
    }
    assert cells[|st.cells|] == cell;
  }

  lemma {:induction false} LinesKeep(st: Scan, lines: seq<string>)
    requires ScanFits(st) && TakeLines(st, lines).Read?
    ensures ScanFits(TakeLines(st, lines).value)
    decreases |lines|
  {
    if lines != [] {
      var line := Cleaned(lines[0]);
      if line != "" && line != "OK" {
        AddKeeps(st, CellLine(line).value);
      }
      LinesKeep(TakeRaw(st, lines[0]).value, lines[1..]);
    }
  }

  /** An accepted scan has 1 to 64 cells with valid PCIs, bands that the channel table assigns,
      measurements in their reporting ranges, and at most one serving cell. */
  lemma AcceptedScan(response: string)
    requires ParseText(response).Read?
    ensures var cells := ParseText(response).value;
            && 1 <= |cells| <= MAX_RESULTS
            && (forall i | 0 <= i < |cells| :: CellFits(cells[i]))
            && forall i, j | 0 <= i < j < |cells| :: !(cells[i].serving && cells[j].serving)
  {
    LinesKeep(BEGIN, Split(response, '\n'));
  }

  /** Quoting a plain token does not change what is read. */
  lemma QuotesDropped(token: string)
    requires token != "" && '"' !in token && !Blank(token[0]) && !Blank(token[|token| - 1])
    ensures Unquoted("\"" + token + "\"") == Some(token) == Unquoted(token)
  {
    var quoted := "\"" + token + "\"";
    assert quoted[0] == '"' && quoted[|quoted| - 1] == '"' && quoted[1..|quoted| - 1] == token;
    assert Trim(quoted) == quoted && Trim(token) == token;
  }
}
