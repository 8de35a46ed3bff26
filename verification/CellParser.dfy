/** The XMCI parser as the source runs it (l850_cell.c): lines, fields and quotes are cut in
    place in a private copy; the scan is an output record that a rejected response does not
    always clear. */
module CellParser {
  import opened Common
  import opened CText
  import opened Numerals
  import opened EarfcnTable
  import opened LockTypes
  import opened CellGrammar

  // ----- one line -------------------------------------------------------------------------------

  /** Take a token out of its quotes by writing over the closing one. */
  method UnquoteInPlace(buf: array<char>, p: nat, ghost e: nat) returns (token: Option<string>)
    requires IsString(buf[..], p, e)
    modifies buf
    ensures token == Unquoted(old(buf[p..e]))
    ensures WritesWithin(old(buf[..]), buf[..], p, e)
  {
    var q, f := TrimInPlace(buf, p, e);
    var text := ReadString(buf, q, f);
    var length := |text|;
    if length == 0 {
      return None;
    }
    if text[0] != '"' {
      return if '"' in text then None else Some(text);
    }
    if length < 3 || text[length - 1] != '"' {
      return None;
    }
    ghost var trimmed := buf[..];
    buf[q + length - 1] := NUL;
    assert buf[q + 1..q + length - 1] == text[1..length - 1];
    var inner := ReadString(buf, q + 1, q + length - 1);
    if '"' in inner || Blank(inner[0]) || Blank(inner[|inner| - 1]) {
      return None;
    }
    token := Some(inner);
  }

  lemma {:induction false} UnquotedFails(fields: seq<string>, i: nat)
    requires i < |fields| && Unquoted(fields[i]).None?
    ensures AllUnquoted(fields).None?
  {
    if i < |fields| - 1 { UnquotedFails(fields[..|fields| - 1], i); }
  }

  /** Unquote the fields one after the other, each inside its own piece of the buffer. */
  method UnquoteFields(buf: array<char>, starts: seq<nat>, ghost ends: seq<nat>, ghost fields: seq<string>, ghost p: nat, ghost e: nat)
    returns (tokens: Option<seq<string>>)
    requires HoldsFields(buf[..], starts, ends, fields, p, e + 1) && |starts| == |fields| && e < buf.Length
    modifies buf
    ensures tokens == AllUnquoted(fields)
    ensures WritesWithin(old(buf[..]), buf[..], p, e)
  {
    ghost var whole := buf[..];
    var done: seq<string> := [];
    var i := 0;
    assert fields[..0] == [];
    while i < |starts|
      invariant i <= |starts| && AllUnquoted(fields[..i]) == Some(done)
      invariant forall j | i <= j < |starts| :: HoldsField(buf[..], starts[j], ends[j], fields[j])
      invariant WritesWithin(whole, buf[..], p, e)
    {
      ghost var before := buf[..];
      assert HoldsField(before, starts[i], ends[i], fields[i]);
      assert before[starts[i]..ends[i]] == buf[starts[i]..ends[i]];
      var token := UnquoteInPlace(buf, starts[i], ends[i]);
      OthersSurvive(before, buf[..], starts, ends, fields, i);
      WidenOut(before, buf[..], starts[i], ends[i], p, e);
      WritesCompose(whole, before, buf[..], p, p, e);
      if token.None? {
        UnquotedFails(fields, i);
        return None;
      }
      assert fields[..i + 1][..i] == fields[..i];
      done := done + [token.value];
      i := i + 1;
    }
    assert fields[..i] == fields;
    tokens := Some(done);
  }

  lemma WidenOut(before: seq<char>, after: seq<char>, q: nat, f: nat, p: nat, e: nat)
    requires WritesWithin(before, after, q, f) && p <= q && f <= e
    ensures WritesWithin(before, after, p, e)
  {
  }

  /** Writing inside field i leaves the later fields alone. */
  lemma OthersSurvive(before: seq<char>, after: seq<char>, starts: seq<nat>, ends: seq<nat>, fields: seq<string>, i: nat)
    requires |starts| == |ends| == |fields| && i < |starts| && WritesWithin(before, after, starts[i], ends[i])
    requires forall k, j | 0 <= k < j < |starts| :: ends[k] < starts[j]
    requires forall j | i <= j < |starts| :: HoldsField(before, starts[j], ends[j], fields[j])
    ensures forall j | i < j < |starts| :: HoldsField(after, starts[j], ends[j], fields[j])
  {
    forall j | i < j < |starts| ensures HoldsField(after, starts[j], ends[j], fields[j]) {
      assert HoldsField(before, starts[j], ends[j], fields[j]);
      assert after[starts[j]..ends[j]] == before[starts[j]..ends[j]];
    }
  }

  method ParseNumbers(tokens: seq<string>) returns (ok: bool)
    requires |tokens| == FIELD_COUNT
    ensures ok <==> AllNumbers(tokens)
  {
    var index := 0;
    while index < FIELD_COUNT
      invariant index <= FIELD_COUNT
      invariant forall i | 0 <= i < index && i != SIGNED_FIELD :: Unsigned(tokens[i]).Some?
    {
      if index != SIGNED_FIELD {
        var number := ParseUint32(tokens[index]);
        if number.None? {
          return false;
        }
      }
      index := index + 1;
    }
    var rssnr := ParseInt32(tokens[SIGNED_FIELD], true);
    ok := rssnr.Some?;
  }

  method ParseCell(tokens: seq<string>) returns (cell: Reading<Cell>)
    requires |tokens| == FIELD_COUNT
    ensures cell == CellOf(tokens)
  {
    var ok := ParseNumbers(tokens);
    if !ok {
      return Rejected(Malformed);
    }
    var kind, pci, earfcn := Num(tokens, 0), Num(tokens, 5), Num(tokens, 6);
    if kind != 4 && kind != 5 {
      return Rejected(UnsupportedType);
    }
    if pci == UINT32_MAX || earfcn == UINT32_MAX || Num(tokens, 9) == 255 || Num(tokens, 10) == 255 {
      return Rejected(Sentinel);
    }
    if pci > PCI_MAX {
      return Rejected(OutOfRange);
    }
    var band := EarfcnToBand(earfcn);
    if band.None? || !InRange(tokens) {
      return Rejected(OutOfRange);
    }
    cell := Read(Cell(kind == 4, earfcn, pci, band.value, Num(tokens, 9) - 141, Num(tokens, 10) * 5 - 195));
  }

  lemma {:induction false} UnquotedLength(fields: seq<string>)
    ensures AllUnquoted(fields).Some? ==> |AllUnquoted(fields).value| == |fields|
  {
    if fields != [] { UnquotedLength(fields[..|fields| - 1]); }
  }

  /** A trimmed cell line, split, unquoted and read in place. */
  method ParseCellLine(buf: array<char>, q: nat, ghost f: nat) returns (cell: Reading<Cell>)
    requires IsString(buf[..], q, f)
    modifies buf
    ensures cell == CellLine(old(buf[q..f]))
    ensures WritesWithin(old(buf[..]), buf[..], q, f)
  {
    ghost var whole := buf[..];
    var line := ReadString(buf, q, f);
    if !HasPrefix(line) {
      return Rejected(Malformed);
    }
    assert buf[q + |PREFIX|..f] == line[|PREFIX|..];
    var b, g := TrimInPlace(buf, q + |PREFIX|, f);
    ghost var cut := buf[..];
    WidenOut(whole, cut, q + |PREFIX|, f, q, f);
    ghost var fields := Fields(Body(line));
    var count, starts, ends := SplitFields(buf, b, FIELD_COUNT, g);
    ghost var split := buf[..];
    WidenOut(cut, split, b, g, q, f);
    WritesCompose(whole, cut, split, q, q, f);
    if count != FIELD_COUNT {
      return Rejected(Malformed);
    }
    var tokens := UnquoteFields(buf, starts, ends, fields, b, g);
    WidenOut(split, buf[..], b, g, q, f);
    WritesCompose(whole, split, buf[..], q, q, f);
    UnquotedLength(fields);
    if tokens.None? {
      return Rejected(Malformed);
    }
    cell := ParseCell(tokens.value);
  }

  // ----- the scan -----------------------------------------------------------------------------------

  class CellScan {
    var done: bool
    var serving: bool
    var cells: seq<Cell>

    constructor ()
      ensures Value() == BEGIN
    {
      done, serving, cells := false, false, [];
    }

    function Value(): Scan
      reads this
    {
      Scan(done, serving, cells)
    }

    ghost predicate Follows(outcome: Reading<Scan>, fault: Option<Fault>)
      reads this
    {
      match outcome
      case Rejected(why) => fault == Some(why)
      case Read(st) => fault.None? && Value() == st
    }

    method Add(cell: Cell) returns (fault: Option<Fault>)
      modifies this
      ensures Follows(AddCell(old(Value()), cell), fault)
    {
      if cell.serving {
        if serving {
          return Some(Malformed);
        }
        serving := true;
      }
      cells := cells + [cell];
      fault := None;
    }

    method ReadLine(buf: array<char>, p: nat, ghost e: nat, ghost first: Reading<Scan>) returns (fault: Option<Fault>)
      requires IsString(buf[..], p, e) && first == TakeRaw(Value(), buf[p..e])
      modifies this, buf
      ensures Follows(first, fault) && WritesWithin(old(buf[..]), buf[..], p, e)
    {
      ghost var whole := buf[..];
      var q, f := CleanLine(buf, p, e);
      ghost var clean := buf[..];
      assert buf[..][q..f] == buf[q..f];
      if buf[q] == NUL {
        return None;
      }
      var line := ReadString(buf, q, f);
      if line == "OK" {
        if done {
          return Some(Malformed);
        }
        done := true;
        return None;
      }
      if done || |cells| >= MAX_RESULTS {
        return Some(if |cells| >= MAX_RESULTS then TooMany else Malformed);
      }
      var cell := ParseCellLine(buf, q, f);
      WidenOut(clean, buf[..], q, f, p, e);
      WritesCompose(whole, clean, buf[..], p, p, e);
      if cell.Rejected? {
        return Some(cell.why);
      }
      fault := Add(cell.value);
    }
  }

  // ----- the line loop --------------------------------------------------------------------------------

  lemma LinesStep(st: Scan, text: string)
    ensures TakeLines(st, Split(text, '\n')) == AfterFirst(TakeRaw(st, text[..Find(text, '\n')]), Rest(text, '\n'))
  {
    SplitIs(text, '\n');
    assert ([text[..Find(text, '\n')]] + Rest(text, '\n'))[1..] == Rest(text, '\n');
  }

  /** Cut the line at `line` off the text and read it; the rest of the text is untouched. */
  method ReadNext(scan: CellScan, buf: array<char>, line: nat, ghost e: nat, ghost text: string, ghost first: Reading<Scan>)
    returns (fault: Option<Fault>, next: nat, more: bool)
    requires IsString(buf[..], line, e) && buf[line..e] == text
    requires first == TakeRaw(scan.Value(), text[..Find(text, '\n')])
    modifies scan, buf
    ensures scan.Follows(first, fault)
    ensures next == line + Find(text, '\n') + 1 && (more <==> Find(text, '\n') < |text|)
    ensures more ==> next <= e && IsString(buf[..], next, e) && buf[next..e] == text[Find(text, '\n') + 1..]
  {
    var end, again := CutPiece(buf, line, '\n', e);
    ghost var cut := buf[..];
    assert again ==> cut[end + 1..e] == text[end + 1 - line..];
    fault := scan.ReadLine(buf, line, end, first);
    TailSurvives(cut, buf[..], line, end, e);
    next, more := end + 1, again;
    assert more ==> buf[..][next..e] == buf[next..e];
  }

  method ReadLines(scan: CellScan, buf: array<char>, ghost e: nat) returns (fault: Option<Fault>)
    requires IsString(buf[..], 0, e)
    modifies scan, buf
    ensures scan.Follows(TakeLines(old(scan.Value()), Split(old(buf[0..e]), '\n')), fault)
  {
    ghost var text := buf[0..e];
    ghost var goal := TakeLines(scan.Value(), Split(text, '\n'));
    var line, more := 0, true;
    fault := None;
    while more
      invariant fault.None?
      invariant more ==> line <= e && IsString(buf[..], line, e) && buf[line..e] == text
      invariant goal == if more then TakeLines(scan.Value(), Split(text, '\n')) else Read(scan.Value())
      decreases if more then e + 1 - line else 0
    {
      LinesStep(scan.Value(), text);
      ghost var first := TakeRaw(scan.Value(), text[..Find(text, '\n')]);
      fault, line, more := ReadNext(scan, buf, line, e, text, first);
      if fault.Some? {
        return;
      }
      text := if more then text[Find(text, '\n') + 1..] else [];
    }
  }

  /** The output record of the parser. */
  class ScanOutput {
    var cells: seq<Cell>

    /** Parse into the record. An empty or oversized response is rejected before the record is
        cleared and leaves the previous scan in it; every other rejection empties it. */
    method Parse(response: string) returns (fault: Option<Fault>)
      modifies this
      ensures match ParseText(response)
              case Read(value) => fault.None? && cells == value
              case Rejected(why) =>
                && fault == Some(why)
                && cells == (if response == "" || |response| > MAX_RESPONSE then old(cells) else [])
    {
      if response == "" {
        return Some(Empty);
      }
      if |response| > MAX_RESPONSE {
        return Some(Oversized);
      }
      cells := [];
      if NUL in response {
        return Some(Malformed);
      }
      var buf := CopyResponse(response);
      var scan := new CellScan();
      fault := ReadLines(scan, buf, |response|);
      if fault.Some? {
        return;
      }
      if scan.cells == [] {
        return Some(Empty);
      }
      cells := scan.cells;
    }
  }
}
