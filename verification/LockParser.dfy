/** The NVM parser as the source runs it (l850_cell.c): lines, keys and values cut in place in
    a private copy, an array of values filled by key, and an output record that a rejected
    response does not always clear. */
module LockParser {
  import opened Common
  import opened CText
  import opened Numerals
  import opened EarfcnTable
  import opened LockTypes
  import opened LockGrammar

  const ZEROED: LockState := LockState(false, false, 0, 0, 0)

  class NvmScan {
    const values: array<Option<nat>>
    var count: nat

    constructor ()
      ensures fresh(values) && values[..] == Nothing() && count == 0
    {
      values := new Option<nat>[KEYS](_ => None);
      count := 0;
    }

    ghost predicate Valid()
      reads this, values
    {
      FiveOf(values[..]) && (count == 0 <==> forall k | 0 <= k < KEYS :: values[k].None?)
    }

    ghost predicate Follows(outcome: Reading<Values>, fault: Option<Fault>)
      reads values
    {
      match outcome
      case Rejected(why) => fault == Some(why)
      case Read(after) => fault.None? && values[..] == after
    }

    method FindKey(key: string) returns (index: nat)
      ensures index == KeyIndex(key, 0)
    {
      index := 0;
      while index < KEYS && Key(index) != key
        invariant index <= KEYS && KeyIndex(key, 0) == KeyIndex(key, index)
      {
        index := index + 1;
      }
    }

    method Store(key: string, text: string) returns (fault: Option<Fault>)
      requires Valid()
      modifies values, this`count
      ensures Valid() && Follows(Assign(old(values[..]), key, text), fault)
    {
      var index := FindKey(key);
      if index == KEYS {
        return Some(Malformed);
      }
      assert values[..][index] == values[index];
      if values[index].Some? {
        return Some(Malformed);
      }
      var number := ParseUint32(text);
      if number.None? {
        return Some(Malformed);
      }
      values[index] := number;
      count := count + 1;
      assert values[index].Some?;
      fault := None;
    }

    /** One equals sign and no other. */
    method CheckAssignment(buf: array<char>, q: nat, ghost f: nat) returns (ok: bool)
      requires IsString(buf[..], q, f)
      ensures ok <==> IsAssignment(buf[q..f])
    {
      ghost var line := buf[q..f];
      var hit, found := StrChr(buf, q, '=', f);
      if !found {
        return false;
      }
      assert line[hit + 1 - q..] == buf[hit + 1..f];
      var second, again := StrChr(buf, hit + 1, '=', f);
      if again {
        assert line[hit + 1 - q..][second - hit - 1] == '=';
        return false;
      }
      ok := true;
    }

    /** Cut an assignment at its equals sign; both sides are trimmed in place. */
    method CutAssignment(buf: array<char>, q: nat, ghost f: nat) returns (ok: bool, key: string, text: string)
      requires IsString(buf[..], q, f)
      modifies buf
      ensures var line := old(buf[q..f]);
              (ok <==> IsAssignment(line)) && (ok ==> key == KeyOf(line) && text == ValueOf(line))
      ensures WritesWithin(old(buf[..]), buf[..], q, f)
    {
      ok := CheckAssignment(buf, q, f);
      key, text := "", "";
      if !ok {
        return;
      }
      ghost var whole := buf[..];
      var end, more := CutPiece(buf, q, '=', f);
      ghost var cut := buf[..];
      key := ReadTrimmed(buf, q, end);
      TailSurvives(cut, buf[..], q, end, f);
      ghost var keyed := buf[..];
      WidenWrites(cut, keyed, q, end, f);
      WritesCompose(whole, cut, keyed, q, q, f);
      assert buf[..][end + 1..f] == buf[end + 1..f];
      text := ReadTrimmed(buf, end + 1, f);
      WritesCompose(whole, keyed, buf[..], q, end + 1, f);
    }

    method ReadLine(buf: array<char>, p: nat, ghost e: nat, ghost first: Reading<Values>) returns (fault: Option<Fault>)
      requires Valid() && IsString(buf[..], p, e) && first == TakeRaw(values[..], buf[p..e]) && buf as object != values
      modifies values, this`count, buf
      ensures Valid() && Follows(first, fault)
      ensures WritesWithin(old(buf[..]), buf[..], p, e)
    {
      ghost var whole := buf[..];
      var q, f := CleanLine(buf, p, e);
      ghost var clean := buf[..];
      assert buf[..][q..f] == buf[q..f];
      if buf[q] == NUL {
        return None;
      }
      var ok, key, text := CutAssignment(buf, q, f);
      assert WritesWithin(clean, buf[..], p, e);
      WritesCompose(whole, clean, buf[..], p, p, e);
      if !ok {
        return Some(Malformed);
      }
      fault := Store(key, text);
    }
  }

  method ReadTrimmed(buf: array<char>, p: nat, ghost e: nat) returns (s: string)
    requires IsString(buf[..], p, e)
    modifies buf
    ensures s == Trim(old(buf[p..e])) && WritesWithin(old(buf[..]), buf[..], p, e)
  {
    var q, f := TrimInPlace(buf, p, e);
    s := ReadString(buf, q, f);
  }

  // ----- the line loop ------------------------------------------------------------------------------

  lemma LinesStep(values: Values, text: string)
    requires FiveOf(values)
    ensures TakeLines(values, Split(text, '\n')) == AfterFirst(TakeRaw(values, text[..Find(text, '\n')]), Rest(text, '\n'))
  {
    SplitIs(text, '\n');
    assert ([text[..Find(text, '\n')]] + Rest(text, '\n'))[1..] == Rest(text, '\n');
  }

  method NextLine(scan: NvmScan, buf: array<char>, line: nat, ghost e: nat, ghost text: string, ghost goal: Reading<Values>)
    returns (fault: Option<Fault>, next: nat, more: bool, ghost rest: string)
    requires scan.Valid() && IsString(buf[..], line, e) && buf[line..e] == text && buf as object != scan.values
    requires goal == TakeLines(scan.values[..], Split(text, '\n'))
    modifies scan.values, scan`count, buf
    ensures scan.Valid() && line < next
    ensures fault.Some? ==> goal == Rejected(fault.value)
    ensures fault.None? && more ==> next <= e && IsString(buf[..], next, e) && buf[next..e] == rest
    ensures fault.None? && more ==> goal == TakeLines(scan.values[..], Split(rest, '\n'))
    ensures fault.None? && !more ==> goal == Read(scan.values[..])
  {
    ghost var values := scan.values[..];
    ghost var first := TakeRaw(values, text[..Find(text, '\n')]);
    LinesStep(values, text);
    fault, next, more := ReadNext(scan, buf, line, e, text, first);
    rest := if more then text[Find(text, '\n') + 1..] else [];
  }

  /** Cut the line at `line` off the text and read it; the rest of the text is untouched. */
  method ReadNext(scan: NvmScan, buf: array<char>, line: nat, ghost e: nat, ghost text: string, ghost first: Reading<Values>)
    returns (fault: Option<Fault>, next: nat, more: bool)
    requires scan.Valid() && IsString(buf[..], line, e) && buf[line..e] == text && buf as object != scan.values
    requires first == TakeRaw(scan.values[..], text[..Find(text, '\n')])
    modifies scan.values, scan`count, buf
    ensures scan.Valid() && scan.Follows(first, fault)
    ensures next == line + Find(text, '\n') + 1 && (more <==> Find(text, '\n') < |text|)
    ensures more ==> next <= e && IsString(buf[..], next, e) && buf[next..e] == text[Find(text, '\n') + 1..]
  {
    var end, again := CutPiece(buf, line, '\n', e);
    ghost var cut := buf[..];
    assert again ==> cut[end + 1..e] == text[end + 1 - line..];
    fault := scan.ReadLine(buf, line, end, first);
    TailSurvives(cut, buf[..], line, end, e);
    next, more := end + 1, again;
    assert more ==> buf[..][next..e] == buf[next..e];
  }

  method ReadLines(scan: NvmScan, buf: array<char>, ghost e: nat) returns (fault: Option<Fault>)
    requires scan.Valid() && IsString(buf[..], 0, e) && buf as object != scan.values
    modifies scan.values, scan`count, buf
    ensures scan.Valid()
    ensures scan.Follows(TakeLines(old(scan.values[..]), Split(old(buf[0..e]), '\n')), fault)
  {
    ghost var text := buf[0..e];
    ghost var goal := TakeLines(scan.values[..], Split(text, '\n'));
    var line, more := 0, true;
    fault := None;
    while more
      invariant scan.Valid() && fault.None?
      invariant more ==> line <= e && IsString(buf[..], line, e) && buf[line..e] == text
      invariant goal == if more then TakeLines(scan.values[..], Split(text, '\n')) else Read(scan.values[..])
      decreases if more then e + 1 - line else 0
    {
      fault, line, more, text := NextLine(scan, buf, line, e, text, goal);
      if fault.Some? {
        return;
      }
    }
  }

  /** The output record of the parser. */
  class LockOutput {
    var state: LockState

    /** Parse into the record. An empty or oversized response is rejected before the record
        is cleared and leaves the previous state in it; every other rejection zeroes it. */
    method Parse(response: string) returns (fault: Option<Fault>)
      modifies this
      ensures match ParseNvm(response)
              case Read(value) => fault.None? && state == value
              case Rejected(why) =>
                && fault == Some(why)
                && state == (if response == "" || |response| > NVM_MAX_RESPONSE then old(state) else ZEROED)
    {
      if response == "" {
        return Some(Empty);
      }
      if |response| > NVM_MAX_RESPONSE {
        return Some(Oversized);
      }
      state := ZEROED;
      if NUL in response {
        return Some(Malformed);
      }
      var buf := CopyResponse(response);
      var scan := new NvmScan();
      fault := ReadLines(scan, buf, |response|);
      if fault.Some? {
        return;
      }
      var outcome := Decide(scan);
      if outcome.Rejected? {
        return Some(outcome.why);
      }
      state := outcome.value;
    }

    method Decide(scan: NvmScan) returns (outcome: Reading<LockState>)
      requires scan.Valid()
      ensures outcome == Conclude(scan.values[..])
    {
      if scan.count == 0 {
        assert forall k | 0 <= k < KEYS :: scan.values[..][k].None?;
        return Rejected(Empty);
      }
      assert exists k | 0 <= k < KEYS :: scan.values[..][k].Some? by {
        var k :| 0 <= k < KEYS && scan.values[k].Some?;
        assert scan.values[..][k].Some?;
      }
      if !Complete(scan.values[..]) {
        return Rejected(Malformed);
      }
      outcome := StateOf(TupleOf(scan.values[..]));
    }
  }
}
