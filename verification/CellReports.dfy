/** What an XMCI scan means (l850_cell.c): the accepted texts and the cells they stand for,
    stated by the position of each number in its line. */
module CellReports {
  import opened Common
  import opened CText
  import opened Numerals
  import opened EarfcnTable
  import opened LockTypes
  import opened TextForms
  import opened CellGrammar

  /** The fourteen numbers of a line, in their order. */
  datatype Numbers = Numbers(
    kind: nat, mcc: nat, mnc: nat, tac: nat, cellId: nat, pci: nat, earfcn: nat, uplink: nat, pathloss: nat,
    rsrp: nat, rsrq: nat, rssnr: int, timing: nat, cqi: nat)

  function InOrder(n: Numbers): (values: seq<int>)
    ensures |values| == FIELD_COUNT
  {
    [n.kind, n.mcc, n.mnc, n.tac, n.cellId, n.pci, n.earfcn, n.uplink, n.pathloss, n.rsrp, n.rsrq, n.rssnr, n.timing, n.cqi]
  }

  /** The field, out of its quotes, is a numeral of that value; only the twelfth may be negative. */
  predicate FieldReads(field: string, k: nat, value: int) {
    && Unquoted(field).Some?
    && var token := Unquoted(field).value;
       if k == SIGNED_FIELD then Signed(token, true) == Some(value)
       else Unsigned(token).Some? && Unsigned(token).value == value
  }

  /** Behind the prefix the line has fourteen fields with these numbers. */
  predicate LineRenders(line: string, n: Numbers) {
    && HasPrefix(line)
    && var fields := Fields(Body(line));
       |fields| == FIELD_COUNT && forall k | 0 <= k < FIELD_COUNT :: FieldReads(fields[k], k, InOrder(n)[k])
  }

  /** The numbers a cell may be reported with. */
  predicate Reportable(n: Numbers) {
    && (n.kind == 4 || n.kind == 5) && n.pci <= PCI_MAX && EarfcnToBand(n.earfcn).Some?
    && n.mcc <= 999 && n.mnc <= 999 && n.tac <= 65535 && (n.cellId <= 0x0FFF_FFFF || n.cellId == UINT32_MAX)
    && (n.uplink <= 262143 || n.uplink == UINT32_MAX) && (n.pathloss <= 254 || n.pathloss == UINT32_MAX)
    && n.rsrp <= 97 && n.rsrq <= 34 && -255 <= n.rssnr <= 255
    && (n.timing <= 1282 || n.timing == INT32_MAX) && n.cqi <= 15
  }

  /** The cell that the numbers report. */
  predicate Reports(n: Numbers, c: Cell) {
    && (c.serving <==> n.kind == 4) && c.pci == n.pci && c.earfcn == n.earfcn && EarfcnToBand(n.earfcn) == Some(c.band)
    && c.rsrpDbm + 141 == n.rsrp && c.rsrqTenthsDb + 195 == 5 * n.rsrq
  }

  // ----- one line ---------------------------------------------------------------------------------------

  lemma {:induction false} UnquotedEach(fields: seq<string>)
    ensures AllUnquoted(fields).Some? <==> forall k | 0 <= k < |fields| :: Unquoted(fields[k]).Some?
    ensures AllUnquoted(fields).Some? ==>
              |AllUnquoted(fields).value| == |fields|
              && forall k | 0 <= k < |fields| :: Unquoted(fields[k]) == Some(AllUnquoted(fields).value[k])
  {
    if fields != [] { UnquotedEach(fields[..|fields| - 1]); }
  }

  /** Each token is a numeral of its number. */
  ghost predicate TokensRead(tokens: seq<string>, n: Numbers) {
    && |tokens| == FIELD_COUNT
    && (forall k | 0 <= k < FIELD_COUNT && k != SIGNED_FIELD ::
          Unsigned(tokens[k]).Some? && Unsigned(tokens[k]).value == InOrder(n)[k])
    && Signed(tokens[SIGNED_FIELD], true) == Some(n.rssnr)
  }

  lemma FieldsAreTokens(line: string, n: Numbers)
    requires HasPrefix(line) && |Fields(Body(line))| == FIELD_COUNT
    ensures LineRenders(line, n) <==>
            AllUnquoted(Fields(Body(line))).Some? && TokensRead(AllUnquoted(Fields(Body(line))).value, n)
  {
    var fields := Fields(Body(line));
    UnquotedEach(fields);
    assert InOrder(n)[SIGNED_FIELD] == n.rssnr;
    if AllUnquoted(fields).Some? && TokensRead(AllUnquoted(fields).value, n) {
      forall k | 0 <= k < FIELD_COUNT ensures FieldReads(fields[k], k, InOrder(n)[k]) {
      }
    }
    if LineRenders(line, n) {
      assert FieldReads(fields[SIGNED_FIELD], SIGNED_FIELD, n.rssnr);
    }
  }

  function NumbersOf(tokens: seq<string>): Numbers
    requires AllNumbers(tokens)
  {
    Numbers(Num(tokens, 0), Num(tokens, 1), Num(tokens, 2), Num(tokens, 3), Num(tokens, 4), Num(tokens, 5), Num(tokens, 6),
            Num(tokens, 7), Num(tokens, 8), Num(tokens, 9), Num(tokens, 10), Signed(tokens[SIGNED_FIELD], true).value,
            Num(tokens, 12), Num(tokens, 13))
  }

  lemma NumbersAreRead(tokens: seq<string>, n: Numbers)
    ensures TokensRead(tokens, n) <==> AllNumbers(tokens) && n == NumbersOf(tokens)
  {
    if TokensRead(tokens, n) {
      var v := InOrder(n);
      assert v[0] == n.kind && v[1] == n.mcc && v[2] == n.mnc && v[3] == n.tac && v[4] == n.cellId && v[5] == n.pci
             && v[6] == n.earfcn && v[7] == n.uplink && v[8] == n.pathloss && v[9] == n.rsrp && v[10] == n.rsrq
             && v[12] == n.timing && v[13] == n.cqi;
    }
  }

  function CellFrom(n: Numbers): Cell
    requires Reportable(n)
  {
    Cell(n.kind == 4, n.earfcn, n.pci, EarfcnToBand(n.earfcn).value, n.rsrp - 141, n.rsrq * 5 - 195)
  }

  lemma ReportsOne(n: Numbers, c: Cell)
    requires Reportable(n)
    ensures Reports(n, c) <==> c == CellFrom(n)
  {
  }

  lemma ReportedNumbers(tokens: seq<string>, n: Numbers)
    requires AllNumbers(tokens) && n == NumbersOf(tokens) && Reportable(n)
    ensures CellOf(tokens) == Read(CellFrom(n))
  {
    NoBandAtTop(n.earfcn);
  }

  lemma NoBandAtTop(earfcn: nat)
    ensures EarfcnToBand(earfcn).Some? ==> earfcn != UINT32_MAX
  {
    LookupBounds(earfcn);
  }

  lemma CellOfNumbers(tokens: seq<string>, c: Cell)
    requires AllNumbers(tokens)
    ensures CellOf(tokens) == Read(c) <==> Reportable(NumbersOf(tokens)) && Reports(NumbersOf(tokens), c)
  {
    var n := NumbersOf(tokens);
    if Reportable(n) {
      ReportedNumbers(tokens, n);
      ReportsOne(n, c);
    } else {
      RefusedNumbers(tokens, n);
    }
  }

  lemma PrefixedFields(line: string)
    requires HasPrefix(line)
    ensures FieldsOf(line).Some? <==> |Fields(Body(line))| == FIELD_COUNT && forall k | 0 <= k < FIELD_COUNT :: Fields(Body(line))[k] != ""
    ensures FieldsOf(line).Some? ==> FieldsOf(line).value == Fields(Body(line))
  {
    var fields := Fields(Body(line));
    TrimmedSize(Split(Body(line), ','));
    FieldCountIs(fields, FIELD_COUNT);
  }

  lemma {:induction false} TrimmedSize(pieces: seq<string>)
    ensures |Trimmed(pieces)| == |pieces|
  {
    if pieces != [] { TrimmedSize(pieces[1..]); }
  }

  lemma EmptyHasNoToken(field: string)
    requires Unquoted(field).Some?
    ensures field != ""
  {
  }

  lemma TokensDecide(line: string, c: Cell)
    requires HasPrefix(line) && |Fields(Body(line))| == FIELD_COUNT
    ensures CellLine(line) == Read(c) <==> exists n :: LineRenders(line, n) && Reportable(n) && Reports(n, c)
  {
    var fields := Fields(Body(line));
    PrefixedFields(line);
    UnquotedEach(fields);
    if AllUnquoted(fields).Some? {
      var tokens := AllUnquoted(fields).value;
      forall k | 0 <= k < FIELD_COUNT ensures fields[k] != "" { EmptyHasNoToken(fields[k]); }
      if AllNumbers(tokens) {
        CellOfNumbers(tokens, c);
        FieldsAreTokens(line, NumbersOf(tokens));
        NumbersAreRead(tokens, NumbersOf(tokens));
      }
    }
    if n :| LineRenders(line, n) && Reportable(n) && Reports(n, c) {
      FieldsAreTokens(line, n);
      NumbersAreRead(AllUnquoted(fields).value, n);
    }
  }

  /** A line is read as a cell exactly when it renders reportable numbers of that cell. */
  lemma LineReadIff(line: string, c: Cell)
    ensures CellLine(line) == Read(c) <==> exists n :: LineRenders(line, n) && Reportable(n) && Reports(n, c)
  {
    if HasPrefix(line) {
      PrefixedFields(line);
      if |Fields(Body(line))| == FIELD_COUNT { TokensDecide(line, c); }
    }
  }

  /** Why numbers that cannot be reported are refused: the type first, then the values that
      stand for "not available", then the ranges. */
  lemma LineRefused(line: string, n: Numbers)
    requires LineRenders(line, n) && !Reportable(n)
    ensures CellLine(line) ==
            Rejected(if n.kind != 4 && n.kind != 5 then UnsupportedType
                     else if n.pci == UINT32_MAX || n.earfcn == UINT32_MAX || n.rsrp == 255 || n.rsrq == 255 then Sentinel
                     else OutOfRange)
  {
    var fields := Fields(Body(line));
    PrefixedFields(line);
    UnquotedEach(fields);
    forall k | 0 <= k < FIELD_COUNT ensures fields[k] != "" { EmptyHasNoToken(fields[k]); }
    FieldsAreTokens(line, n);
    var tokens := AllUnquoted(fields).value;
    NumbersAreRead(tokens, n);
    RefusedNumbers(tokens, n);
  }

  lemma RefusedNumbers(tokens: seq<string>, n: Numbers)
    requires AllNumbers(tokens) && n == NumbersOf(tokens) && !Reportable(n)
    ensures CellOf(tokens) ==
            Rejected(if n.kind != 4 && n.kind != 5 then UnsupportedType
                     else if n.pci == UINT32_MAX || n.earfcn == UINT32_MAX || n.rsrp == 255 || n.rsrq == 255 then Sentinel
                     else OutOfRange)
  {
  }

  // ----- the whole scan -----------------------------------------------------------------------------------

  /** The lines that are not blank, without line ends and outer blanks. */
  function Shown(lines: seq<string>): seq<string> {
    if lines == [] then []
    else if Cleaned(lines[0]) == "" then Shown(lines[1..])
    else [Cleaned(lines[0])] + Shown(lines[1..])
  }

  /** What one line is to the scan. */
  datatype Claim = Closing | Line(cell: Reading<Cell>)

  function ClaimOf(line: string): Claim {
    if line == "OK" then Closing else Line(CellLine(line))
  }

  function Claims(shown: seq<string>): seq<Claim> {
    seq(|shown|, i requires 0 <= i < |shown| => ClaimOf(shown[i]))
  }

  function TakeClaim(st: Scan, claim: Claim): Reading<Scan> {
    if claim.Closing? then if st.done then Rejected(Malformed) else Read(st.(done := true))
    else if |st.cells| >= MAX_RESULTS then Rejected(TooMany)
    else if st.done then Rejected(Malformed)
    else if claim.cell.Rejected? then Rejected(claim.cell.why)
    else AddCell(st, claim.cell.value)
  }

  /** The loop over claims in place of texts. */
  function TakeClaims(st: Scan, claims: seq<Claim>): Reading<Scan>
    decreases |claims|
  {
    if claims == [] then Read(st)
    else
      var next := TakeClaim(st, claims[0]);
      if next.Rejected? then next else TakeClaims(next.value, claims[1..])
  }

  lemma RawIsClaim(st: Scan, raw: string)
    ensures TakeRaw(st, raw) == if Cleaned(raw) == "" then Read(st) else TakeClaim(st, ClaimOf(Cleaned(raw)))
  {
  }

  lemma {:induction false} LinesAreClaims(st: Scan, lines: seq<string>)
    ensures TakeLines(st, lines) == TakeClaims(st, Claims(Shown(lines)))
    decreases |lines|
  {
    if lines != [] {
      RawIsClaim(st, lines[0]);
      if Cleaned(lines[0]) != "" {
        var all := Claims(Shown(lines));
        assert all[0] == ClaimOf(Cleaned(lines[0])) && all[1..] == Claims(Shown(lines[1..]));
      }
      var next := TakeRaw(st, lines[0]);
      if next.Read? { LinesAreClaims(next.value, lines[1..]); }
    }
  }

  /** One claim per cell, in order, and perhaps a closing one. */
  ghost predicate ClaimsShow(claims: seq<Claim>, cells: seq<Cell>) {
    && (|claims| == |cells| || (|claims| == |cells| + 1 && claims[|cells|].Closing?))
    && forall i | 0 <= i < |cells| :: claims[i] == Line(Read(cells[i]))
  }

  ghost predicate OneServes(cells: seq<Cell>) {
    forall i, j | 0 <= i < j < |cells| :: !(cells[i].serving && cells[j].serving)
  }

  /** What a scan in progress still accepts. */
  ghost predicate Continues(st: Scan, claims: seq<Claim>, cells: seq<Cell>) {
    && ClaimsShow(claims, cells) && |st.cells| + |cells| <= MAX_RESULTS
    && OneServes(cells) && (st.serving ==> forall i | 0 <= i < |cells| :: !cells[i].serving)
  }

  lemma {:induction false} ShownIsTaken(st: Scan, claims: seq<Claim>, cells: seq<Cell>)
    requires !st.done && Continues(st, claims, cells)
    ensures TakeClaims(st, claims).Read? && TakeClaims(st, claims).value.cells == st.cells + cells
    decreases |claims|
  {
    if cells == [] {
      if claims != [] { assert claims[1..] == []; }
    } else {
      ShownIsTaken(TakeClaim(st, claims[0]).value, claims[1..], cells[1..]);
      assert st.cells + [cells[0]] + cells[1..] == st.cells + cells;
    }
  }

  lemma DoneTakesNothing(st: Scan, claims: seq<Claim>)
    requires st.done && claims != []
    ensures TakeClaims(st, claims).Rejected?
  {
  }

  lemma {:induction false} TakenIsShown(st: Scan, claims: seq<Claim>) returns (cells: seq<Cell>)
    requires !st.done && TakeClaims(st, claims).Read? && |st.cells| <= MAX_RESULTS
    ensures Continues(st, claims, cells) && TakeClaims(st, claims).value.cells == st.cells + cells
    decreases |claims|
  {
    cells := [];
    if claims != [] {
      if claims[0].Closing? {
        if |claims| > 1 { DoneTakesNothing(st.(done := true), claims[1..]); }
      } else {
        var more := TakenIsShown(TakeClaim(st, claims[0]).value, claims[1..]);
        cells := [claims[0].cell.value] + more;
        assert forall i | 0 < i < |cells| :: cells[i] == more[i - 1] && claims[i] == claims[1..][i - 1];
      }
    }
  }

  predicate Bounded(response: string) {
    response != "" && |response| <= MAX_RESPONSE && NUL !in response
  }

  lemma ClaimsReadIff(claims: seq<Claim>, cells: seq<Cell>)
    ensures TakeClaims(BEGIN, claims).Read? && TakeClaims(BEGIN, claims).value.cells == cells <==>
            |cells| <= MAX_RESULTS && OneServes(cells) && ClaimsShow(claims, cells)
  {
    if TakeClaims(BEGIN, claims).Read? && TakeClaims(BEGIN, claims).value.cells == cells {
      var found := TakenIsShown(BEGIN, claims);
      assert [] + found == found;
    }
    if |cells| <= MAX_RESULTS && OneServes(cells) && ClaimsShow(claims, cells) { ShownIsTaken(BEGIN, claims, cells); }
  }

  lemma ScanIsClaims(response: string, cells: seq<Cell>)
    ensures ParseText(response) == Read(cells) <==>
            Bounded(response) && 1 <= |cells| <= MAX_RESULTS && OneServes(cells)
            && ClaimsShow(Claims(Shown(Split(response, '\n'))), cells)
  {
    LinesAreClaims(BEGIN, Split(response, '\n'));
    ClaimsReadIff(Claims(Shown(Split(response, '\n'))), cells);
  }

  /** The shown lines render the numbers, one line a cell, in their order, perhaps with "OK"
      behind them. */
  ghost predicate ShownRenders(shown: seq<string>, ns: seq<Numbers>) {
    && (|shown| == |ns| || (|shown| == |ns| + 1 && shown[|ns|] == "OK"))
    && forall i | 0 <= i < |ns| :: LineRenders(shown[i], ns[i])
  }

  ghost predicate CellsReported(ns: seq<Numbers>, cells: seq<Cell>) {
    |ns| == |cells| && forall i | 0 <= i < |ns| :: Reportable(ns[i]) && Reports(ns[i], cells[i])
  }

  ghost predicate LineReports(line: string, n: Numbers, c: Cell) {
    LineRenders(line, n) && Reportable(n) && Reports(n, c)
  }

  lemma LineClaims(line: string, n: Numbers, c: Cell)
    requires LineReports(line, n, c)
    ensures ClaimOf(line) == Line(Read(c))
  {
    LineReadIff(line, c);
  }

  lemma ShownClaims(shown: seq<string>, ns: seq<Numbers>, cells: seq<Cell>)
    requires ShownRenders(shown, ns) && CellsReported(ns, cells)
    ensures ClaimsShow(Claims(shown), cells)
  {
    forall i | 0 <= i < |cells| ensures Claims(shown)[i] == Line(Read(cells[i])) {
      assert LineReports(shown[i], ns[i], cells[i]);
      LineClaims(shown[i], ns[i], cells[i]);
    }
  }

  ghost function NumbersFor(line: string, c: Cell): (n: Numbers)
    requires ClaimOf(line) == Line(Read(c))
    ensures LineReports(line, n, c)
  {
    LineReadIff(line, c);
    var n :| LineRenders(line, n) && Reportable(n) && Reports(n, c);
    n
  }

  lemma ClaimsShown(shown: seq<string>, cells: seq<Cell>) returns (ns: seq<Numbers>)
    requires ClaimsShow(Claims(shown), cells)
    ensures |ns| == |cells| && forall i | 0 <= i < |ns| :: LineReports(shown[i], ns[i], cells[i])
  {
    assert forall i | 0 <= i < |cells| :: Claims(shown)[i] == ClaimOf(shown[i]);
    ns := seq(|cells|, i requires 0 <= i < |cells| => NumbersFor(shown[i], cells[i]));
  }

  /** The text, line by line, renders the numbers. */
  ghost predicate ScanRenders(response: string, ns: seq<Numbers>) {
    Bounded(response) && 1 <= |ns| <= MAX_RESULTS && ShownRenders(Shown(Split(response, '\n')), ns)
  }

  lemma RenderedScan(response: string, ns: seq<Numbers>, cells: seq<Cell>)
    requires ScanRenders(response, ns) && CellsReported(ns, cells) && OneServes(cells)
    ensures ParseText(response) == Read(cells)
  {
    ShownClaims(Shown(Split(response, '\n')), ns, cells);
    ScanIsClaims(response, cells);
  }

  lemma ScanRendered(response: string, cells: seq<Cell>) returns (ns: seq<Numbers>)
    requires ParseText(response) == Read(cells)
    ensures ScanRenders(response, ns) && CellsReported(ns, cells) && OneServes(cells)
  {
    var shown := Shown(Split(response, '\n'));
    ScanIsClaims(response, cells);
    ns := ClaimsShown(shown, cells);
    forall i | 0 <= i < |ns| ensures LineRenders(shown[i], ns[i]) && Reportable(ns[i]) && Reports(ns[i], cells[i]) {
      assert LineReports(shown[i], ns[i], cells[i]);
    }
    if |shown| > |ns| { assert Claims(shown)[|ns|] == ClaimOf(shown[|ns|]); }
  }

  /** A text is read as these cells exactly when its lines render numbers that report them, in
      their order, at most one of them as serving. */
  lemma ScanReadIff(response: string, cells: seq<Cell>)
    ensures ParseText(response) == Read(cells) <==>
            exists ns :: ScanRenders(response, ns) && CellsReported(ns, cells) && OneServes(cells)
  {
    if ParseText(response) == Read(cells) { var ns := ScanRendered(response, cells); }
    if ns :| ScanRenders(response, ns) && CellsReported(ns, cells) && OneServes(cells) { RenderedScan(response, ns, cells); }
  }

  // ----- the forms of a line --------------------------------------------------------------------------------

  /** A numeral in a field, perhaps quoted, with blanks around it. */
  datatype Field = Field(numeral: string, quoted: bool, a: string, b: string)

  datatype Form =
    | Empty(blanks: string, returned: bool)
    | CellForm(n: Numbers, fields: seq<Field>, lead: string, gap: string, tail: string, returned: bool)
    | Ok(lead: string, tail: string, returned: bool)

  /** The numeral, decimal or hexadecimal with any leading zeros, denotes the k-th number. */
  predicate Denotes(numeral: string, k: nat, value: int) {
    if k == SIGNED_FIELD then Signed(numeral, true) == Some(value)
    else Unsigned(numeral).Some? && Unsigned(numeral).value == value
  }

  /** Blanks around the whole list are those of the line. */
  predicate FieldsOk(fields: seq<Field>, n: Numbers) {
    && |fields| == FIELD_COUNT && fields[0].a == "" && fields[FIELD_COUNT - 1].b == ""
    && forall k | 0 <= k < FIELD_COUNT ::
         AllBlank(fields[k].a) && AllBlank(fields[k].b) && Denotes(fields[k].numeral, k, InOrder(n)[k])
  }

  predicate FormOk(f: Form) {
    match f
    case Empty(blanks, _) => AllBlank(blanks)
    case CellForm(n, fields, lead, gap, tail, _) => FieldsOk(fields, n) && AllBlank(lead) && AllBlank(gap) && AllBlank(tail)
    case Ok(lead, tail, _) => AllBlank(lead) && AllBlank(tail)
  }

  function Token(f: Field): string {
    if f.quoted then "\"" + f.numeral + "\"" else f.numeral
  }

  function FieldText(f: Field): string {
    f.a + Token(f) + f.b
  }

  function FieldTexts(fields: seq<Field>): seq<string> {
    seq(|fields|, k requires 0 <= k < |fields| => FieldText(fields[k]))
  }

  function LineEnd(returned: bool): string {
    if returned then "\r" else ""
  }

  function Core(f: Form): string
    requires FormOk(f)
  {
    match f
    case Empty(_, _) => ""
    case CellForm(_, fields, _, gap, _, _) => PREFIX + gap + Join(FieldTexts(fields), ',')
    case Ok(_, _, _) => "OK"
  }

  function LineText(f: Form): string
    requires FormOk(f)
  {
    match f
    case Empty(blanks, returned) => blanks + LineEnd(returned)
    case CellForm(_, _, lead, _, tail, returned) => lead + Core(f) + tail + LineEnd(returned)
    case Ok(lead, tail, returned) => lead + Core(f) + tail + LineEnd(returned)
  }

  // ----- what a form is read as ----------------------------------------------------------------------------------

  predicate FieldChar(c: char) {
    NumeralChar(c) || c == '-'
  }

  lemma SignedChars(s: string)
    requires Signed(s, true).Some?
    ensures s != "" && forall i | 0 <= i < |s| :: FieldChar(s[i])
  {
    if s[0] == '-' {
      NumberCharsOf(s[1..], INT32_MAX + 1);
      assert forall i | 0 < i < |s| :: s[i] == s[1..][i - 1];
    } else {
      NumberCharsOf(s, INT32_MAX);
    }
  }

  lemma NumberCharsOf(s: string, limit: nat)
    requires Magnitude(s, true, limit).Some?
    ensures s != "" && forall i | 0 <= i < |s| :: NumeralChar(s[i])
  {
    if IsHex(s) {
      forall i | 0 <= i < |s| ensures NumeralChar(s[i]) {
        if i >= 2 { assert s[2..][i - 2] == s[i]; }
      }
    }
  }

  lemma DenotedChars(s: string, k: nat, value: int)
    requires Denotes(s, k, value)
    ensures s != "" && forall i | 0 <= i < |s| :: FieldChar(s[i])
  {
    if k == SIGNED_FIELD { SignedChars(s); } else { NumberChars(s); }
  }

  lemma TokenUnquotes(f: Field)
    requires f.numeral != "" && forall i | 0 <= i < |f.numeral| :: FieldChar(f.numeral[i])
    ensures Solid(Token(f)) && Token(f)[|Token(f)| - 1] != '\r' && Unquoted(Token(f)) == Some(f.numeral)
  {
    QuotesDropped(f.numeral);
  }

  lemma FieldFormReads(f: Field, k: nat, value: int)
    requires AllBlank(f.a) && AllBlank(f.b) && Denotes(f.numeral, k, value)
    ensures Trim(FieldText(f)) == Token(f) && FieldReads(Trim(FieldText(f)), k, value)
    ensures Solid(Token(f)) && Token(f)[|Token(f)| - 1] != '\r' && ',' !in FieldText(f) && '\n' !in FieldText(f) && NUL !in FieldText(f)
  {
    DenotedChars(f.numeral, k, value);
    TokenUnquotes(f);
    TrimBlanks(f.a, Token(f), f.b);
  }

  lemma {:induction false} TrimmedAt(pieces: seq<string>, k: nat)
    requires k < |pieces|
    ensures |Trimmed(pieces)| == |pieces| && Trimmed(pieces)[k] == Trim(pieces[k])
  {
    TrimmedSize(pieces);
    if k > 0 { TrimmedAt(pieces[1..], k - 1); }
  }

  lemma {:induction false} JoinLast(pieces: seq<string>, c: char)
    requires pieces != [] && pieces[|pieces| - 1] != ""
    ensures var s, last := Join(pieces, c), pieces[|pieces| - 1]; s != "" && s[|s| - 1] == last[|last| - 1]
  {
    if |pieces| > 1 { JoinLast(pieces[1..], c); }
  }

  lemma JoinEnds(pieces: seq<string>, c: char)
    requires pieces != [] && pieces[0] != "" && pieces[|pieces| - 1] != ""
    ensures var s, last := Join(pieces, c), pieces[|pieces| - 1];
            s != "" && s[0] == pieces[0][0] && s[|s| - 1] == last[|last| - 1]
  {
    JoinLast(pieces, c);
  }

  lemma FieldsRead(fields: seq<Field>, n: Numbers, k: nat)
    requires FieldsOk(fields, n) && k < FIELD_COUNT
    ensures FieldReads(Trim(FieldTexts(fields)[k]), k, InOrder(n)[k]) && FieldTexts(fields)[k] != ""
    ensures ',' !in FieldTexts(fields)[k] && '\n' !in FieldTexts(fields)[k] && NUL !in FieldTexts(fields)[k]
  {
    FieldFormReads(fields[k], k, InOrder(n)[k]);
  }

  /** The joined fields neither start nor end with a blank. */
  lemma ListIsSolid(fields: seq<Field>, n: Numbers)
    requires FieldsOk(fields, n)
    ensures var list := Join(FieldTexts(fields), ','); Solid(list) && list[|list| - 1] != '\r'
  {
    var texts := FieldTexts(fields);
    FieldFormReads(fields[0], 0, InOrder(n)[0]);
    FieldFormReads(fields[FIELD_COUNT - 1], FIELD_COUNT - 1, InOrder(n)[FIELD_COUNT - 1]);
    assert texts[0] == Token(fields[0]) + fields[0].b;
    assert texts[FIELD_COUNT - 1] == fields[FIELD_COUNT - 1].a + Token(fields[FIELD_COUNT - 1]);
    JoinEnds(texts, ',');
  }

  lemma ListSplits(fields: seq<Field>, n: Numbers)
    requires FieldsOk(fields, n)
    ensures var found := Fields(Join(FieldTexts(fields), ','));
            |found| == FIELD_COUNT && forall k | 0 <= k < FIELD_COUNT :: FieldReads(found[k], k, InOrder(n)[k])
  {
    var texts := FieldTexts(fields);
    forall k | 0 <= k < |texts| ensures ',' !in texts[k] { FieldsRead(fields, n, k); }
    JoinSplits(texts, ',');
    TrimmedSize(texts);
    forall k | 0 <= k < FIELD_COUNT ensures FieldReads(Trimmed(texts)[k], k, InOrder(n)[k]) {
      FieldsRead(fields, n, k);
      TrimmedAt(texts, k);
    }
  }

  lemma BodyIsList(gap: string, list: string)
    requires AllBlank(gap) && Solid(list)
    ensures HasPrefix(PREFIX + gap + list) && Body(PREFIX + gap + list) == list
    ensures Solid(PREFIX + gap + list) && (PREFIX + gap + list)[|PREFIX + gap + list| - 1] == list[|list| - 1]
  {
    var line := PREFIX + gap + list;
    assert line == PREFIX + (gap + list) && line[..|PREFIX|] == PREFIX;
    assert line[|PREFIX|..] == gap + list + "";
    TrimBlanks(gap, list, "");
    assert line[0] == PREFIX[0] && line[|line| - 1] == list[|list| - 1];
  }

  lemma CoreRenders(f: Form)
    requires FormOk(f) && f.CellForm?
    ensures LineRenders(Core(f), f.n) && Solid(Core(f)) && Core(f)[|Core(f)| - 1] != '\r'
  {
    ListIsSolid(f.fields, f.n);
    ListSplits(f.fields, f.n);
    BodyIsList(f.gap, Join(FieldTexts(f.fields), ','));
  }

  lemma WrapCleans(lead: string, core: string, tail: string, returned: bool)
    requires AllBlank(lead) && AllBlank(tail) && Solid(core) && core[|core| - 1] != '\r'
    ensures Cleaned(lead + core + tail + LineEnd(returned)) == core
  {
    assert DropReturn(lead + core + tail + LineEnd(returned)) == lead + core + tail;
    TrimBlanks(lead, core, tail);
  }

  lemma EmptyCleans(blanks: string, returned: bool)
    requires AllBlank(blanks)
    ensures Cleaned(blanks + LineEnd(returned)) == ""
  {
    assert DropReturn(blanks + LineEnd(returned)) == blanks;
    TrimAllBlank(blanks);
  }

  lemma FormCleans(f: Form)
    requires FormOk(f)
    ensures Cleaned(LineText(f)) == Core(f) && (Core(f) == "" <==> f.Empty?)
  {
    match f
    case Empty(blanks, returned) => EmptyCleans(blanks, returned);
    case CellForm(_, _, lead, _, tail, returned) =>
      CoreRenders(f);
      WrapCleans(lead, Core(f), tail, returned);
    case Ok(lead, tail, returned) => WrapCleans(lead, "OK", tail, returned);
  }

  // ----- a text of such lines ---------------------------------------------------------------------------------------

  ghost predicate FormsOk(forms: seq<Form>) {
    forall i | 0 <= i < |forms| :: FormOk(forms[i])
  }

  function Texts(forms: seq<Form>): seq<string>
    requires FormsOk(forms)
  {
    if forms == [] then [] else [LineText(forms[0])] + Texts(forms[1..])
  }

  /** The forms that are not blank. */
  function Filled(forms: seq<Form>): seq<Form> {
    if forms == [] then [] else if forms[0].Empty? then Filled(forms[1..]) else [forms[0]] + Filled(forms[1..])
  }

  lemma {:induction false} TextsShow(forms: seq<Form>)
    requires FormsOk(forms)
    ensures FormsOk(Filled(forms)) && |Shown(Texts(forms))| == |Filled(forms)|
    ensures forall i | 0 <= i < |Filled(forms)| :: Shown(Texts(forms))[i] == Core(Filled(forms)[i])
  {
    if forms != [] {
      TextsShow(forms[1..]);
      FormCleans(forms[0]);
      assert Texts(forms)[1..] == Texts(forms[1..]);
    }
  }

  lemma {:induction false} JoinClean(pieces: seq<string>, c: char)
    requires pieces != [] && c != NUL && forall i | 0 <= i < |pieces| :: NUL !in pieces[i] && '\n' !in pieces[i]
    ensures NUL !in Join(pieces, c) && (c != '\n' ==> '\n' !in Join(pieces, c))
  {
    if |pieces| > 1 { JoinClean(pieces[1..], c); }
  }

  lemma FormIsClean(f: Form)
    requires FormOk(f)
    ensures NUL !in LineText(f) && '\n' !in LineText(f)
  {
    if f.CellForm? {
      ListIsClean(f.fields, f.n);
      CoreIsClean(f.gap, Join(FieldTexts(f.fields), ','));
    }
  }

  lemma ListIsClean(fields: seq<Field>, n: Numbers)
    requires FieldsOk(fields, n)
    ensures NUL !in Join(FieldTexts(fields), ',') && '\n' !in Join(FieldTexts(fields), ',')
  {
    forall k | 0 <= k < FIELD_COUNT ensures NUL !in FieldTexts(fields)[k] && '\n' !in FieldTexts(fields)[k] {
      FieldsRead(fields, n, k);
    }
    JoinClean(FieldTexts(fields), ',');
  }

  lemma CoreIsClean(gap: string, list: string)
    requires AllBlank(gap) && NUL !in list && '\n' !in list
    ensures NUL !in PREFIX + gap + list && '\n' !in PREFIX + gap + list
  {
  }

  lemma {:induction false} TextsClean(forms: seq<Form>)
    requires FormsOk(forms)
    ensures |Texts(forms)| == |forms| && forall i | 0 <= i < |forms| :: NUL !in Texts(forms)[i] && '\n' !in Texts(forms)[i]
  {
    if forms != [] {
      TextsClean(forms[1..]);
      FormIsClean(forms[0]);
      assert forall i | 0 < i < |forms| :: Texts(forms)[i] == Texts(forms[1..])[i - 1];
    }
  }

  /** A cell line per entry of `ns`, in order, and perhaps a closing "OK", with blank lines
      anywhere. */
  ghost predicate Writes(forms: seq<Form>, ns: seq<Numbers>) {
    && FormsOk(forms)
    && (|Filled(forms)| == |ns| || (|Filled(forms)| == |ns| + 1 && Filled(forms)[|ns|].Ok?))
    && forall i | 0 <= i < |ns| :: Filled(forms)[i].CellForm? && Filled(forms)[i].n == ns[i]
  }

  lemma WrittenRenders(forms: seq<Form>, ns: seq<Numbers>)
    requires Writes(forms, ns)
    ensures ShownRenders(Shown(Texts(forms)), ns)
  {
    TextsShow(forms);
    forall i | 0 <= i < |ns| ensures LineRenders(Shown(Texts(forms))[i], ns[i]) {
      CoreRenders(Filled(forms)[i]);
    }
  }

  /** Every scan written in these forms is read as the cells of its numbers: serving exactly
      for type 4, identity and channel as given, RSRP and RSRQ from their reporting codes. */
  lemma ScanTextParses(forms: seq<Form>, ns: seq<Numbers>, cells: seq<Cell>)
    requires Writes(forms, ns) && 1 <= |ns| <= MAX_RESULTS && CellsReported(ns, cells) && OneServes(cells)
    ensures Texts(forms) != []
    ensures |Join(Texts(forms), '\n')| <= MAX_RESPONSE ==> ParseText(Join(Texts(forms), '\n')) == Read(cells)
  {
    var texts := Texts(forms);
    assert Split("", '\n') == [""] && Shown([""]) == [];
    WrittenRenders(forms, ns);
    TextsClean(forms);
    JoinSplits(texts, '\n');
    JoinClean(texts, '\n');
    var response := Join(texts, '\n');
    if |response| <= MAX_RESPONSE { RenderedScan(response, ns, cells); }
  }
}
