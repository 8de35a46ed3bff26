/** C strings in a mutable buffer, as the response parsers use them: lines and fields are cut
    by writing NUL bytes into a copy of the response (l850_ca.c, l850_cell.c). Each routine is
    proved to compute the pure split-and-trim grammar and to write only inside its own
    string. */
module CText {
  import opened Common

  const NUL: char := '\0'

  predicate Blank(c: char) {
    c == ' ' || c == '\t'
  }

  // ----- the pure grammar --------------------------------------------------------------------

  function TrimLeft(s: string): string {
    if s != [] && Blank(s[0]) then TrimLeft(s[1..]) else s
  }

  function TrimRight(s: string): string {
    if s != [] && Blank(s[|s| - 1]) then TrimRight(s[..|s| - 1]) else s
  }

  function Trim(s: string): string {
    TrimRight(TrimLeft(s))
  }

  /** A line loses one trailing carriage return and its outer blanks. */
  function DropReturn(line: string): string {
    if line != "" && line[|line| - 1] == '\r' then line[..|line| - 1] else line
  }

  function Cleaned(raw: string): string {
    Trim(DropReturn(raw))
  }

  /** Position of the first `c`, or the length. */
  function Find(s: string, c: char): (i: nat)
    ensures i <= |s| && (i < |s| ==> s[i] == c) && forall k | 0 <= k < i :: s[k] != c
  {
    if s == [] || s[0] == c then 0 else 1 + Find(s[1..], c)
  }

  /** The pieces between separators; one more than there are separators. */
  function Split(s: string, c: char): (pieces: seq<string>)
    ensures |pieces| >= 1
    decreases |s|
  {
    var i := Find(s, c);
    if i == |s| then [s] else [s[..i]] + Split(s[i + 1..], c)
  }

  /** Splitting loses nothing: the pieces joined by the separator are the text again, and no
      piece contains it. */
  function Join(pieces: seq<string>, c: char): string
    requires pieces != []
  {
    if |pieces| == 1 then pieces[0] else pieces[0] + [c] + Join(pieces[1..], c)
  }

  lemma {:induction false} SplitJoins(s: string, c: char)
    ensures Join(Split(s, c), c) == s
    ensures forall k | 0 <= k < |Split(s, c)| :: c !in Split(s, c)[k]
    decreases |s|
  {
    var i := Find(s, c);
    if i < |s| {
      SplitJoins(s[i + 1..], c);
      assert Split(s, c)[1..] == Split(s[i + 1..], c);
      assert s == s[..i] + [c] + s[i + 1..];
    }
  }

  lemma {:induction false} JoinSplits(pieces: seq<string>, c: char)
    requires pieces != [] && forall k | 0 <= k < |pieces| :: c !in pieces[k]
    ensures Split(Join(pieces, c), c) == pieces
  {
    var s := Join(pieces, c);
    if |pieces| == 1 {
      assert Find(s, c) == |s|;
    } else {
      JoinSplits(pieces[1..], c);
      assert s[|pieces[0]|] == c;
      assert forall k | 0 <= k < |pieces[0]| :: s[k] == pieces[0][k];
      assert Find(s, c) == |pieces[0]|;
      assert s[..|pieces[0]|] == pieces[0] && s[|pieces[0]| + 1..] == Join(pieces[1..], c);
    }
  }

  /** Everything behind the first piece. */
  function Rest(s: string, c: char): seq<string> {
    if Find(s, c) < |s| then Split(s[Find(s, c) + 1..], c) else []
  }

  lemma SplitIs(s: string, c: char)
    ensures Split(s, c) == [s[..Find(s, c)]] + Rest(s, c)
  {
    if Find(s, c) == |s| { assert s[..|s|] == s; }
  }

  function Trimmed(pieces: seq<string>): seq<string> {
    if pieces == [] then [] else [Trim(pieces[0])] + Trimmed(pieces[1..])
  }

  /** Comma-separated fields, each trimmed. */
  function Fields(s: string): seq<string> {
    Trimmed(Split(s, ','))
  }

  /** What the field splitter returns: no fields when one of those that fit is empty, one
      more than fit when there are too many. */
  function FieldCount(fields: seq<string>, capacity: nat): nat
    decreases |fields|
  {
    if fields == [] then 0
    else if capacity == 0 then 1
    else if fields[0] == "" then 0
    else if |fields| == 1 then 1
    else
      var rest := FieldCount(fields[1..], capacity - 1);
      if rest == 0 then 0 else rest + 1
  }

  lemma {:induction false} FieldCountIs(fields: seq<string>, capacity: nat)
    requires fields != []
    ensures FieldCount(fields, capacity) ==
            if exists k | 0 <= k < |fields| && k < capacity :: fields[k] == "" then 0
            else if |fields| > capacity then capacity + 1
            else |fields|
  {
    if capacity > 0 && fields[0] != "" && |fields| > 1 {
      FieldCountIs(fields[1..], capacity - 1);
      if k :| 0 <= k < |fields| && k < capacity && fields[k] == "" {
        assert fields[1..][k - 1] == "";
      }
    }
  }

  // ----- strings in a buffer ----------------------------------------------------------------------

  /** The C string that starts at `p` ends with the NUL at `e`. */
  ghost predicate IsString(buf: seq<char>, p: nat, e: nat) {
    p <= e < |buf| && buf[e] == NUL && forall i | p <= i < e :: buf[i] != NUL
  }

  /** Only the cells from `p` up to but not including `e` may differ. */
  ghost predicate WritesWithin(before: seq<char>, after: seq<char>, p: nat, e: nat) {
    |after| == |before| && forall i | 0 <= i < |before| && !(p <= i < e) :: after[i] == before[i]
  }

  /** A private copy of a response, with its terminator. */
  method CopyResponse(response: string) returns (buf: array<char>)
    requires NUL !in response
    ensures fresh(buf) && buf.Length == |response| + 1 && IsString(buf[..], 0, |response|) && buf[0..|response|] == response
  {
    buf := new char[|response| + 1](i => if 0 <= i < |response| then response[i] else NUL);
    assert forall i | 0 <= i < |response| :: buf[i] == response[i];
  }

  method StrLen(buf: array<char>, p: nat, ghost e: nat) returns (end: nat)
    requires IsString(buf[..], p, e)
    ensures end == e
  {
    end := p;
    while buf[end] != NUL
      invariant p <= end <= e
      decreases e - end
    {
      assert buf[..][end] != NUL;
      end := end + 1;
    }
    assert buf[..][end] == NUL;
  }

  method StrChr(buf: array<char>, p: nat, c: char, ghost e: nat) returns (hit: nat, found: bool)
    requires IsString(buf[..], p, e) && c != NUL
    ensures hit == p + Find(buf[p..e], c) && (found <==> hit < e)
  {
    hit := p;
    while buf[hit] != NUL && buf[hit] != c
      invariant p <= hit <= e
      invariant Find(buf[p..e], c) == hit - p + Find(buf[hit..e], c)
      decreases e - hit
    {
      assert buf[..][hit] != NUL;
      assert buf[hit..e][1..] == buf[hit + 1..e];
      hit := hit + 1;
    }
    assert buf[..][hit] == buf[hit];
    found := buf[hit] == c;
  }

  method SkipBlanks(buf: array<char>, p: nat, ghost e: nat) returns (q: nat)
    requires IsString(buf[..], p, e)
    ensures p <= q <= e && buf[q..e] == TrimLeft(buf[p..e])
  {
    q := p;
    while Blank(buf[q])
      invariant p <= q <= e
      invariant TrimLeft(buf[q..e]) == TrimLeft(buf[p..e])
      decreases e - q
    {
      assert buf[..][q] == buf[q];
      assert buf[q..e][1..] == buf[q + 1..e];
      q := q + 1;
    }
  }

  method CutBlanks(buf: array<char>, q: nat, ghost e: nat) returns (ghost f: nat)
    requires IsString(buf[..], q, e)
    modifies buf
    ensures q <= f <= e && IsString(buf[..], q, f) && buf[q..f] == TrimRight(old(buf[q..e]))
    ensures WritesWithin(old(buf[..]), buf[..], q, e)
  {
    ghost var before := buf[..];
    var end := StrLen(buf, q, e);
    while end > q && Blank(buf[end - 1])
      invariant q <= end <= e && buf[end] == NUL
      invariant TrimRight(before[q..end]) == TrimRight(before[q..e])
      invariant buf[..end] == before[..end] && WritesWithin(before, buf[..], q, e)
    {
      assert before[q..end][..end - 1 - q] == before[q..end - 1];
      assert buf[end - 1] == before[end - 1];
      end := end - 1;
      buf[end] := NUL;
    }
    f := end;
    assert buf[q..f] == before[q..f];
    assert end > q ==> buf[end - 1] == before[end - 1];
  }

  method TrimInPlace(buf: array<char>, p: nat, ghost e: nat) returns (q: nat, ghost f: nat)
    requires IsString(buf[..], p, e)
    modifies buf
    ensures p <= q <= f <= e && IsString(buf[..], q, f)
    ensures buf[q..f] == Trim(old(buf[p..e]))
    ensures WritesWithin(old(buf[..]), buf[..], p, e)
  {
    q := SkipBlanks(buf, p, e);
    f := CutBlanks(buf, q, e);
  }

  method ReadString(buf: array<char>, p: nat, ghost e: nat) returns (s: string)
    requires IsString(buf[..], p, e)
    ensures s == buf[p..e]
  {
    var end := StrLen(buf, p, e);
    s := buf[p..end];
  }

  lemma WritesCompose(a: seq<char>, b: seq<char>, c: seq<char>, p: nat, cursor: nat, e: nat)
    requires WritesWithin(a, b, p, e) && WritesWithin(b, c, cursor, e) && p <= cursor
    ensures WritesWithin(a, c, p, e)
  {
  }

  method CutReturn(buf: array<char>, p: nat, ghost e: nat) returns (ghost shorter: nat)
    requires IsString(buf[..], p, e)
    modifies buf
    ensures p <= shorter <= e && IsString(buf[..], p, shorter) && buf[p..shorter] == DropReturn(old(buf[p..e]))
    ensures WritesWithin(old(buf[..]), buf[..], p, e)
  {
    ghost var whole := buf[..];
    var end := StrLen(buf, p, e);
    shorter := end;
    if end > p && buf[end - 1] == '\r' {
      buf[end - 1] := NUL;
      shorter := end - 1;
    }
    assert forall i | p <= i < shorter :: buf[i] == whole[i];
    assert buf[p..shorter] == whole[p..shorter];
    assert whole[p..e][..|whole[p..e]| - (e - shorter)] == whole[p..shorter];
  }

  /** Drop a trailing carriage return, then trim. */
  method CleanLine(buf: array<char>, p: nat, ghost e: nat) returns (q: nat, ghost f: nat)
    requires IsString(buf[..], p, e)
    modifies buf
    ensures p <= q <= f <= e && IsString(buf[..], q, f) && buf[q..f] == Cleaned(old(buf[p..e]))
    ensures WritesWithin(old(buf[..]), buf[..], p, e)
  {
    ghost var whole := buf[..];
    ghost var shorter := CutReturn(buf, p, e);
    ghost var cut := buf[..];
    q, f := TrimInPlace(buf, p, shorter);
    WidenWrites(cut, buf[..], p, shorter, e);
    WritesCompose(whole, cut, buf[..], p, p, e);
  }

  lemma WidenWrites(before: seq<char>, after: seq<char>, p: nat, e: nat, wider: nat)
    requires WritesWithin(before, after, p, e) && e <= wider
    ensures WritesWithin(before, after, p, wider)
  {
  }

  /** Cut the first piece off the string at `p` by writing a NUL over its separator. */
  method CutPiece(buf: array<char>, p: nat, c: char, ghost e: nat) returns (end: nat, more: bool)
    requires IsString(buf[..], p, e) && c != NUL
    modifies buf
    ensures var text := old(buf[p..e]);
            && end == p + Find(text, c) && (more <==> end < e)
            && IsString(buf[..], p, end) && buf[p..end] == text[..end - p]
            && (more ==> IsString(buf[..], end + 1, e) && buf[end + 1..e] == text[end + 1 - p..])
    ensures WritesWithin(old(buf[..]), buf[..], p, e)
  {
    end, more := StrChr(buf, p, c, e);
    ghost var before := buf[..];
    if more {
      buf[end] := NUL;
    }
    assert forall i | p <= i < end :: buf[i] == before[i];
    assert forall i | end < i <= e :: buf[i] == before[i];
  }

  lemma TrimmedCons(piece: string, rest: seq<string>)
    ensures Trimmed([piece] + rest) == [Trim(piece)] + Trimmed(rest)
  {
    assert ([piece] + rest)[1..] == rest;
  }

  lemma FieldsStep(s: string)
    ensures var i := Find(s, ',');
            Fields(s) == [Trim(s[..i])] + (if i < |s| then Fields(s[i + 1..]) else [])
  {
    var i := Find(s, ',');
    if i < |s| {
      TrimmedCons(s[..i], Split(s[i + 1..], ','));
    } else {
      assert s[..i] == s && [s] == [s] + [];
      TrimmedCons(s, []);
    }
  }

  /** One field: cut at the next comma and trim. */
  method CutField(buf: array<char>, p: nat, ghost e: nat) returns (q: nat, ghost f: nat, end: nat, more: bool)
    requires IsString(buf[..], p, e)
    modifies buf
    ensures var text := old(buf[p..e]);
            && end == p + Find(text, ',') && (more <==> end < e)
            && p <= q <= f <= end && IsString(buf[..], q, f) && buf[q..f] == Fields(text)[0]
            && Fields(text)[1..] == (if more then Fields(text[end + 1 - p..]) else [])
            && (more ==> IsString(buf[..], end + 1, e) && buf[end + 1..e] == text[end + 1 - p..])
    ensures WritesWithin(old(buf[..]), buf[..], p, e)
  {
    ghost var text := buf[p..e];
    FieldsStep(text);
    end, more := CutPiece(buf, p, ',', e);
    ghost var cut := buf[..];
    q, f := TrimInPlace(buf, p, end);
    TailSurvives(cut, buf[..], p, end, e);
  }

  lemma TailSurvives(before: seq<char>, after: seq<char>, p: nat, end: nat, e: nat)
    requires WritesWithin(before, after, p, end) && p <= end <= e < |before|
    ensures end < e && IsString(before, end + 1, e) ==> IsString(after, end + 1, e) && after[end + 1..e] == before[end + 1..e]
    ensures after[e] == before[e]
  {
  }

  /** Count of `n` fields already accepted plus what the rest gives. */
  function Plus(n: nat, rest: nat): nat {
    if rest == 0 then 0 else n + rest
  }

  /** Field `i` of the text is the string between the two positions. */
  ghost predicate HoldsField(buf: seq<char>, start: nat, end: nat, field: string) {
    IsString(buf, start, end) && buf[start..end] == field
  }

  ghost predicate HoldsFields(buf: seq<char>, starts: seq<nat>, ends: seq<nat>, fields: seq<string>, p: nat, limit: nat) {
    && |starts| == |ends| <= |fields|
    && (forall i | 0 <= i < |starts| :: p <= starts[i] <= ends[i] < limit && HoldsField(buf, starts[i], ends[i], fields[i]))
    && (forall i, j | 0 <= i < j < |starts| :: ends[i] < starts[j])
  }

  lemma FieldsSurvive(before: seq<char>, after: seq<char>, starts: seq<nat>, ends: seq<nat>, fields: seq<string>,
                      p: nat, limit: nat, e: nat)
    requires HoldsFields(before, starts, ends, fields, p, limit) && WritesWithin(before, after, limit, e)
    ensures HoldsFields(after, starts, ends, fields, p, limit)
  {
    forall i | 0 <= i < |starts| ensures HoldsField(after, starts[i], ends[i], fields[i]) {
      assert HoldsField(before, starts[i], ends[i], fields[i]);
      assert after[starts[i]..ends[i]] == before[starts[i]..ends[i]];
    }
  }

  /** Having accepted `n` fields, the total is decided by the rest. */
  ghost predicate Counting(fields: seq<string>, n: nat, capacity: nat) {
    n < |fields| && n <= capacity && FieldCount(fields, capacity) == Plus(n, FieldCount(fields[n..], capacity - n))
  }

  lemma CountStep(fields: seq<string>, n: nat, capacity: nat)
    requires Counting(fields, n, capacity)
    ensures n == capacity ==> FieldCount(fields, capacity) == capacity + 1
    ensures n < capacity && fields[n] == "" ==> FieldCount(fields, capacity) == 0
    ensures n < capacity && fields[n] != "" && n + 1 == |fields| ==> FieldCount(fields, capacity) == n + 1
    ensures n < capacity && fields[n] != "" && n + 1 < |fields| ==> Counting(fields, n + 1, capacity)
  {
    assert fields[n..][0] == fields[n] && fields[n..][1..] == fields[n + 1..];
  }

  lemma AddField(buf: seq<char>, starts: seq<nat>, ends: seq<nat>, fields: seq<string>, p: nat, limit: nat,
                 q: nat, f: nat, end: nat)
    requires HoldsFields(buf, starts, ends, fields, p, limit) && |starts| < |fields| && p <= limit
    requires limit <= q <= f <= end && HoldsField(buf, q, f, fields[|starts|])
    ensures HoldsFields(buf, starts + [q], ends + [f], fields, p, end + 1)
    ensures buf[q] == NUL <==> fields[|starts|] == ""
  {
  }

  /** The splitter's state: `n` fields found, the rest of the text still at `cursor`. */
  ghost predicate Splitting(buf: seq<char>, cursor: nat, e: nat, fields: seq<string>, n: nat) {
    IsString(buf, cursor, e) && n < |fields| && fields[n..] == Fields(buf[cursor..e])
  }

  /** Take the next field out of the text. */
  method NextField(buf: array<char>, cursor: nat, ghost e: nat, ghost fields: seq<string>, ghost n: nat)
    returns (q: nat, ghost f: nat, end: nat, more: bool)
    requires Splitting(buf[..], cursor, e, fields, n)
    modifies buf
    ensures cursor <= q <= f <= end <= e && HoldsField(buf[..], q, f, fields[n])
    ensures more <==> n + 1 < |fields|
    ensures more ==> end < e && Splitting(buf[..], end + 1, e, fields, n + 1)
    ensures WritesWithin(old(buf[..]), buf[..], cursor, e)
  {
    q, f, end, more := CutField(buf, cursor, e);
    assert fields[n] == fields[n..][0] && fields[n..][1..] == fields[n + 1..];
    assert buf[..][q..f] == buf[q..f];
    if more { assert buf[..][end + 1..e] == buf[end + 1..e]; FieldsStep(buf[end + 1..e]); }
  }

  /** Where the splitter stands: the fields found so far and, if there is more, the rest. */
  ghost predicate Progress(buf: seq<char>, p: nat, cursor: nat, e: nat, fields: seq<string>, capacity: nat,
                           starts: seq<nat>, ends: seq<nat>, more: bool) {
    && p <= cursor <= e + 1 && |starts| <= capacity
    && (if more then Splitting(buf, cursor, e, fields, |starts|) && Counting(fields, |starts|, capacity)
        else |starts| == |fields| == FieldCount(fields, capacity))
    && HoldsFields(buf, starts, ends, fields, p, cursor)
  }

  /** One turn of the splitter; it stops early on an empty field or when none fits any more. */
  method SplitStep(buf: array<char>, ghost p: nat, cursor: nat, ghost e: nat, ghost fields: seq<string>, capacity: nat,
                   starts: seq<nat>, ghost ends: seq<nat>)
    returns (stop: Option<nat>, next: nat, more: bool, longer: seq<nat>, ghost longerEnds: seq<nat>)
    requires Progress(buf[..], p, cursor, e, fields, capacity, starts, ends, true)
    modifies buf
    ensures WritesWithin(old(buf[..]), buf[..], cursor, e)
    ensures stop.Some? ==> stop.value == FieldCount(fields, capacity) && !(1 <= stop.value <= capacity)
    ensures stop.None? ==> cursor < next && Progress(buf[..], p, next, e, fields, capacity, longer, longerEnds, more)
  {
    ghost var before := buf[..];
    stop, next, more, longer, longerEnds := None, cursor, false, starts, ends;
    CountStep(fields, |starts|, capacity);
    if |starts| >= capacity {
      stop := Some(capacity + 1);
      return;
    }
    var q, f, end, again := NextField(buf, cursor, e, fields, |starts|);
    FieldsSurvive(before, buf[..], starts, ends, fields, p, cursor, e);
    AddField(buf[..], starts, ends, fields, p, cursor, q, f, end);
    if buf[q] == NUL {
      stop := Some(0);
      return;
    }
    next, more, longer, longerEnds := end + 1, again, starts + [q], ends + [f];
  }

  /** The field splitter: positions of the trimmed fields, all inside the original string. */
  method SplitFields(buf: array<char>, p: nat, capacity: nat, ghost e: nat)
    returns (count: nat, starts: seq<nat>, ghost ends: seq<nat>)
    requires IsString(buf[..], p, e)
    modifies buf
    ensures var fields := Fields(old(buf[p..e]));
            && count == FieldCount(fields, capacity)
            && (1 <= count <= capacity ==> |starts| == |fields| == count && HoldsFields(buf[..], starts, ends, fields, p, e + 1))
    ensures WritesWithin(old(buf[..]), buf[..], p, e)
  {
    ghost var whole := buf[..];
    ghost var fields := Fields(whole[p..e]);
    assert whole[p..e] == buf[p..e];
    var cursor, more, stop: Option<nat> := p, true, None;
    starts, ends := [], [];
    while more
      invariant Progress(buf[..], p, cursor, e, fields, capacity, starts, ends, more)
      invariant WritesWithin(whole, buf[..], p, e)
      decreases e + 1 - cursor, more
    {
      ghost var before := buf[..];
      var cursorBefore := cursor;
      stop, cursor, more, starts, ends := SplitStep(buf, p, cursor, e, fields, capacity, starts, ends);
      WritesCompose(whole, before, buf[..], p, cursorBefore, e);
      if stop.Some? {
        count := stop.value;
        return;
      }
    }
    count := |starts|;
  }
}
