/** Which GTCAINFO responses are accepted (l850_ca.c), exactly: a header that announces the
    number of slots, then one line per slot, in any order, that fit together. */
module CarrierAcceptance {
  import opened Common
  import opened CText
  import opened Numerals
  import opened CarrierGrammar
  import opened CarrierTheorems
  import opened CarrierReports

  // ----- lines as claims ----------------------------------------------------------------------

  /** The lines that are not blank, without line ends and outer blanks. */
  function Shown(lines: seq<string>): seq<string> {
    if lines == [] then []
    else if Cleaned(lines[0]) == "" then Shown(lines[1..])
    else [Cleaned(lines[0])] + Shown(lines[1..])
  }

  datatype Claim = Junk | Heading(field: string) | Record(record: Reading<Slot>)

  function ClaimOf(line: string): Claim {
    if !HasPrefix(line) then Junk
    else match Classify(line)
      case HeaderLine(field) => Heading(field)
      case RecordLine(record) => Record(record)
  }

  function Claims(shown: seq<string>): seq<Claim> {
    seq(|shown|, i requires 0 <= i < |shown| => ClaimOf(shown[i]))
  }

  function TakeClaim(st: Scan, claim: Claim): (r: Reading<Scan>)
    requires ScanOk(st)
    ensures r.Read? ==> ScanOk(r.value)
  {
    match claim
    case Junk => Rejected(Malformed)
    case Heading(field) => Header(st, field)
    case Record(record) => Records(st, record)
  }

  /** The loop over claims in place of texts. */
  function TakeClaims(st: Scan, claims: seq<Claim>): (r: Reading<Scan>)
    requires ScanOk(st)
    ensures r.Read? ==> ScanOk(r.value)
    decreases |claims|
  {
    if claims == [] then Read(st)
    else
      var next := TakeClaim(st, claims[0]);
      if next.Rejected? then next else TakeClaims(next.value, claims[1..])
  }

  lemma RawIsClaim(st: Scan, raw: string)
    requires ScanOk(st)
    ensures TakeRaw(st, raw) == if Cleaned(raw) == "" then Read(st) else TakeClaim(st, ClaimOf(Cleaned(raw)))
  {
  }

  lemma {:induction false} LinesAreClaims(st: Scan, lines: seq<string>)
    requires ScanOk(st)
    ensures TakeLines(st, lines) == TakeClaims(st, Claims(Shown(lines)))
    decreases |lines|
  {
    if lines != [] {
      RawIsClaim(st, lines[0]);
      if Cleaned(lines[0]) != "" {
        var all := Claims(Shown(lines));
        assert all[0] == ClaimOf(Cleaned(lines[0])) && all[1..] == Claims(Shown(lines[1..]));
      }
      var next := TakeRaw(st, lines[0]);
      if next.Read? { LinesAreClaims(next.value, lines[1..]); }
    }
  }

  // ----- records behind the header -----------------------------------------------------------------

  function Recorded(slots: seq<Slot>): seq<Claim> {
    seq(|slots|, i requires 0 <= i < |slots| => Record(Read(slots[i])))
  }

  function Index(slot: Slot): nat {
    slot.carrier.index
  }

  /** Every slot is free before, has an index within the declared number, and no other slot
      has it; there is room for all. */
  ghost predicate Fit(st: Scan, slots: seq<Slot>)
    requires ScanOk(st)
  {
    && st.declared > 0 && st.records + |slots| <= st.declared
    && (forall j | 0 <= j < |slots| :: 1 <= Index(slots[j]) <= st.declared && st.slots[Index(slots[j]) - 1].None?)
    && (forall i, j | 0 <= i < j < |slots| :: Index(slots[i]) != Index(slots[j]))
  }

  ghost predicate Placed(st: Scan, slots: seq<Slot>, after: Scan)
    requires ScanOk(st) && ScanOk(after)
  {
    && after.declared == st.declared && after.records == st.records + |slots|
    && (forall j | 0 <= j < |slots| :: 1 <= Index(slots[j]) <= MAX_SLOTS && after.slots[Index(slots[j]) - 1] == Some(slots[j]))
    && forall i | 0 <= i < MAX_SLOTS :: after.slots[i] == st.slots[i] || exists j :: 0 <= j < |slots| && Index(slots[j]) == i + 1
  }

  lemma FitStep(st: Scan, slots: seq<Slot>)
    requires ScanOk(st) && slots != []
    ensures Fit(st, slots) <==> Records(st, Read(slots[0])).Read? && Fit(Records(st, Read(slots[0])).value, slots[1..])
  {
    var next := Records(st, Read(slots[0]));
    if next.Read? && Fit(next.value, slots[1..]) {
      forall j | 0 <= j < |slots| ensures 1 <= Index(slots[j]) <= st.declared && st.slots[Index(slots[j]) - 1].None? {
        if j > 0 { assert slots[1..][j - 1] == slots[j]; }
      }
      forall i, j | 0 <= i < j < |slots| ensures Index(slots[i]) != Index(slots[j]) {
        assert slots[1..][j - 1] == slots[j];
        if i > 0 { assert slots[1..][i - 1] == slots[i]; }
      }
    }
  }

  lemma PlacedStep(st: Scan, slots: seq<Slot>, after: Scan)
    requires ScanOk(st) && ScanOk(after) && slots != [] && Records(st, Read(slots[0])).Read?
    requires Placed(Records(st, Read(slots[0])).value, slots[1..], after) && Fit(st, slots)
    ensures Placed(st, slots, after)
  {
    var next := Records(st, Read(slots[0])).value;
    var first := Index(slots[0]) - 1;
    forall k | 0 <= k < |slots[1..]| ensures Index(slots[1..][k]) != first + 1 {
      assert Index(slots[0]) != Index(slots[k + 1]);
    }
    forall j | 0 <= j < |slots| ensures 1 <= Index(slots[j]) <= MAX_SLOTS && after.slots[Index(slots[j]) - 1] == Some(slots[j]) {
      if j > 0 {
        assert slots[1..][j - 1] == slots[j];
      }
    }
    forall i | 0 <= i < MAX_SLOTS ensures after.slots[i] == st.slots[i] || exists j :: 0 <= j < |slots| && Index(slots[j]) == i + 1 {
      if i == first {
        assert Index(slots[0]) == i + 1;
      } else if after.slots[i] != next.slots[i] {
        var k :| 0 <= k < |slots[1..]| && Index(slots[1..][k]) == i + 1;
        assert Index(slots[k + 1]) == i + 1;
      }
    }
  }

  /** Record lines are all taken exactly if their slots fit. */
  lemma {:induction false} RecordsTakenIff(st: Scan, slots: seq<Slot>)
    requires ScanOk(st) && st.declared > 0 && st.records <= st.declared
    ensures TakeClaims(st, Recorded(slots)).Read? <==> Fit(st, slots)
    ensures Fit(st, slots) ==> Placed(st, slots, TakeClaims(st, Recorded(slots)).value)
    decreases |slots|
  {
    if slots != [] {
      assert Recorded(slots)[1..] == Recorded(slots[1..]);
      FitStep(st, slots);
      var next := Records(st, Read(slots[0]));
      if next.Read? {
        RecordsTakenIff(next.value, slots[1..]);
        if Fit(st, slots) { PlacedStep(st, slots, TakeClaims(st, Recorded(slots)).value); }
      }
    }
  }

  /** Behind the header nothing but records is taken. */
  lemma {:induction false} OnlyRecords(st: Scan, claims: seq<Claim>) returns (slots: seq<Slot>)
    requires ScanOk(st) && st.declared > 0 && TakeClaims(st, claims).Read?
    ensures claims == Recorded(slots)
    decreases |claims|
  {
    if claims == [] {
      slots := [];
    } else {
      var rest := OnlyRecords(TakeClaim(st, claims[0]).value, claims[1..]);
      slots := [claims[0].record.value] + rest;
      assert Recorded(slots)[1..] == Recorded(rest) == claims[1..];
    }
  }

  // ----- the closing checks ---------------------------------------------------------------------------

  ghost predicate AllFit(slots: seq<Slot>) {
    forall j | 0 <= j < |slots| :: SlotFits(slots[j], Index(slots[j]))
  }

  ghost predicate HasIndex(slots: seq<Slot>, index: int) {
    exists j :: 0 <= j < |slots| && Index(slots[j]) == index
  }

  /** The table lists every slot at its index. */
  ghost predicate Tabled(table: seq<Option<Slot>>, slots: seq<Slot>) {
    && |slots| <= |table|
    && (forall j | 0 <= j < |slots| :: 1 <= Index(slots[j]) <= |slots| && table[Index(slots[j]) - 1] == Some(slots[j]))
    && (forall i | 0 <= i < |slots| :: table[i].Some?)
  }

  ghost function UpTo(n: nat): set<int> {
    if n == 0 then {} else UpTo(n - 1) + {n}
  }

  lemma {:induction false} UpToIs(n: nat, i: int)
    ensures i in UpTo(n) <==> 1 <= i <= n
    ensures |UpTo(n)| == n
  {
    if n > 0 {
      UpToIs(n - 1, i);
      UpToIs(n - 1, n);
    }
  }

  ghost function Indices(slots: seq<Slot>): set<int> {
    set j | 0 <= j < |slots| :: Index(slots[j])
  }

  lemma {:induction false} IndicesSize(slots: seq<Slot>)
    requires forall i, j | 0 <= i < j < |slots| :: Index(slots[i]) != Index(slots[j])
    ensures |Indices(slots)| == |slots|
  {
    if slots != [] {
      var last := |slots| - 1;
      IndicesSize(slots[..last]);
      assert Indices(slots) == Indices(slots[..last]) + {Index(slots[last])};
    }
  }

  lemma EqualSizes(a: set<int>, b: set<int>)
    requires a <= b && |a| == |b|
    ensures a == b
  {
    assert b == a + (b - a);
  }

  /** n distinct numbers between 1 and n are all of them. */
  lemma AllIndices(slots: seq<Slot>, i: int)
    requires forall j | 0 <= j < |slots| :: 1 <= Index(slots[j]) <= |slots|
    requires forall i, j | 0 <= i < j < |slots| :: Index(slots[i]) != Index(slots[j])
    requires 1 <= i <= |slots|
    ensures HasIndex(slots, i)
  {
    forall k | k in Indices(slots) ensures k in UpTo(|slots|) { UpToIs(|slots|, k); }
    IndicesSize(slots);
    UpToIs(|slots|, i);
    EqualSizes(Indices(slots), UpTo(|slots|));
  }

  lemma TableIsFull(table: seq<Option<Slot>>, slots: seq<Slot>, i: nat)
    requires |slots| <= |table| && i < |slots| && HasIndex(slots, i + 1)
    requires forall j | 0 <= j < |slots| :: 1 <= Index(slots[j]) <= |slots| && table[Index(slots[j]) - 1] == Some(slots[j])
    ensures table[i].Some?
  {
    var j :| 0 <= j < |slots| && Index(slots[j]) == i + 1;
    assert table[Index(slots[j]) - 1] == Some(slots[j]);
  }

  lemma Tables(table: seq<Option<Slot>>, slots: seq<Slot>)
    requires |slots| <= |table|
    requires forall j | 0 <= j < |slots| :: 1 <= Index(slots[j]) <= |slots| && table[Index(slots[j]) - 1] == Some(slots[j])
    requires forall i, j | 0 <= i < j < |slots| :: Index(slots[i]) != Index(slots[j])
    ensures Tabled(table, slots)
  {
    forall i | 0 <= i < |slots| ensures table[i].Some? {
      AllIndices(slots, i + 1);
      TableIsFull(table, slots, i);
    }
  }

  lemma PlacedIsTabled(st: Scan, slots: seq<Slot>, after: Scan)
    requires ScanOk(st) && ScanOk(after) && Fit(st, slots) && Placed(st, slots, after) && |slots| == st.declared
    ensures Tabled(after.slots, slots)
  {
    assert forall j | 0 <= j < |slots| :: 1 <= Index(slots[j]) <= |slots| && after.slots[Index(slots[j]) - 1] == Some(slots[j]);
    Tables(after.slots, slots);
  }

  /** The carriers gathered so far are those of active slots, so a repeat is a pair of equal
      active slots. */
  lemma {:induction false} GatherReads(table: seq<Option<Slot>>, n: nat)
    requires n <= |table| && forall i | 0 <= i < n :: table[i].Some?
    ensures Gather(table, n).Read? <==>
            forall i, j | 0 <= i < j < n && table[i].value.active && table[j].value.active ::
              !Same(table[j].value.carrier, table[i].value.carrier)
    ensures Gather(table, n).Read? ==>
              forall c :: c in Gather(table, n).value <==> exists i :: 0 <= i < n && table[i].value == Slot(true, c)
  {
    if n > 0 {
      GatherReads(table, n - 1);
      var before, last := Gather(table, n - 1), table[n - 1].value;
      if before.Read? && last.active { RepeatsIff(table, n - 1, before.value, last.carrier); }
      if Gather(table, n).Read? { GatherGrows(table, n); }
    }
  }

  lemma RepeatsIff(table: seq<Option<Slot>>, n: nat, carriers: seq<Carrier>, c: Carrier)
    requires n <= |table| && forall i | 0 <= i < n :: table[i].Some?
    requires forall x :: x in carriers <==> exists i :: 0 <= i < n && table[i].value == Slot(true, x)
    ensures Repeats(carriers, c) <==> exists i :: 0 <= i < n && table[i].value.active && Same(c, table[i].value.carrier)
  {
    if Repeats(carriers, c) {
      var k :| 0 <= k < |carriers| && Same(c, carriers[k]);
      assert carriers[k] in carriers;
    }
    if i :| 0 <= i < n && table[i].value.active && Same(c, table[i].value.carrier) {
      assert table[i].value == Slot(true, table[i].value.carrier);
      assert table[i].value.carrier in carriers;
    }
  }

  lemma GatherGrows(table: seq<Option<Slot>>, n: nat)
    requires 0 < n <= |table| && (forall i | 0 <= i < n :: table[i].Some?) && Gather(table, n).Read? && Gather(table, n - 1).Read?
    requires forall c :: c in Gather(table, n - 1).value <==> exists i :: 0 <= i < n - 1 && table[i].value == Slot(true, c)
    ensures forall c :: c in Gather(table, n).value <==> exists i :: 0 <= i < n && table[i].value == Slot(true, c)
  {
    var before, now, last := Gather(table, n - 1).value, Gather(table, n).value, table[n - 1].value;
    forall c ensures c in now <==> exists i :: 0 <= i < n && table[i].value == Slot(true, c) {
      assert c in now <==> c in before || (last.active && c == last.carrier);
    }
  }

  // ----- the closing checks --------------------------------------------------------------------------------

  lemma SlotAt(table: seq<Option<Slot>>, slots: seq<Slot>, i: nat) returns (j: nat)
    requires Tabled(table, slots) && i < |slots| && forall a, b | 0 <= a < b < |slots| :: Index(slots[a]) != Index(slots[b])
    ensures j < |slots| && Index(slots[j]) == i + 1 && table[i] == Some(slots[j])
  {
    AllIndices(slots, i + 1);
    j :| 0 <= j < |slots| && Index(slots[j]) == i + 1;
  }

  /** The table has no two equal active slots exactly if the lines have none. */
  lemma PairsAgree(table: seq<Option<Slot>>, slots: seq<Slot>)
    requires Tabled(table, slots) && forall a, b | 0 <= a < b < |slots| :: Index(slots[a]) != Index(slots[b])
    ensures NoPair(table, |slots|) <==> NoTwins(slots)
  {
    if NoTwins(slots) {
      forall i, j | 0 <= i < j < |slots| && table[i].value.active && table[j].value.active
        ensures !Same(table[j].value.carrier, table[i].value.carrier)
      {
        var a := SlotAt(table, slots, i);
        var b := SlotAt(table, slots, j);
        assert a < b || b < a;
      }
    }
    if NoPair(table, |slots|) {
      forall a, b | 0 <= a < b < |slots| && slots[a].active && slots[b].active ensures !Same(slots[a].carrier, slots[b].carrier) {
        var i, j := Index(slots[a]) - 1, Index(slots[b]) - 1;
        assert table[i] == Some(slots[a]) && table[j] == Some(slots[b]);
        assert i < j || j < i;
      }
    }
  }

  ghost predicate NoPair(table: seq<Option<Slot>>, n: nat)
    requires n <= |table| && forall i | 0 <= i < n :: table[i].Some?
  {
    forall i, j | 0 <= i < j < n && table[i].value.active && table[j].value.active :: !Same(table[j].value.carrier, table[i].value.carrier)
  }

  ghost predicate NoTwins(slots: seq<Slot>) {
    forall i, j | 0 <= i < j < |slots| && slots[i].active && slots[j].active :: !Same(slots[i].carrier, slots[j].carrier)
  }

  /** Every line behind the primary's repeats its uplink channel. */
  ghost predicate OneUplink(slots: seq<Slot>) {
    forall i, j | 0 <= i < |slots| && 0 <= j < |slots| && Index(slots[i]) == 1 && Index(slots[j]) > 1 ::
      slots[j].carrier.radio.ulEarfcn == slots[i].carrier.radio.ulEarfcn
  }

  lemma UplinksAre(table: seq<Option<Slot>>, slots: seq<Slot>)
    requires Tabled(table, slots) && AllFit(slots) && slots != []
    requires forall a, b | 0 <= a < b < |slots| :: Index(slots[a]) != Index(slots[b])
    ensures UplinksAgree(table, |slots|) <==> OneUplink(slots)
  {
    var first := SlotAt(table, slots, 0);
    if OneUplink(slots) {
      forall i | 1 <= i < |slots| ensures RadioAt(table, i).ulEarfcn == RadioAt(table, 0).ulEarfcn {
        var j := SlotAt(table, slots, i);
      }
    }
    if UplinksAgree(table, |slots|) {
      forall i, j | 0 <= i < |slots| && 0 <= j < |slots| && Index(slots[i]) == 1 && Index(slots[j]) > 1
        ensures slots[j].carrier.radio.ulEarfcn == slots[i].carrier.radio.ulEarfcn
      {
        assert table[Index(slots[j]) - 1] == Some(slots[j]) && table[Index(slots[i]) - 1] == Some(slots[i]);
        assert SlotFits(slots[j], Index(slots[j]));
        assert RadioAt(table, Index(slots[j]) - 1) == slots[j].carrier.radio && RadioAt(table, 0) == slots[i].carrier.radio;
      }
    }
  }

  ghost predicate Distinct(slots: seq<Slot>) {
    forall i, j | 0 <= i < j < |slots| :: Index(slots[i]) != Index(slots[j])
  }

  /** One slot for each number 1 to n, on one uplink channel, no carrier twice. */
  ghost predicate Together(slots: seq<Slot>) {
    && (forall j | 0 <= j < |slots| :: 1 <= Index(slots[j]) <= |slots|)
    && Distinct(slots) && OneUplink(slots) && NoTwins(slots)
  }

  lemma ConcludesIff(st: Scan, slots: seq<Slot>)
    requires ScanOk(st) && st.declared == |slots| == st.records && slots != []
    requires Tabled(st.slots, slots) && AllFit(slots) && Distinct(slots)
    ensures Conclude(st).Read? <==> OneUplink(slots) && NoTwins(slots)
    ensures Conclude(st).Read? ==>
              && Conclude(st).value.declaredSlots == |slots|
              && forall c :: c in Conclude(st).value.carriers <==> Slot(true, c) in slots
  {
    var first := SlotAt(st.slots, slots, 0);
    assert SlotFits(slots[first], 1);
    UplinksAre(st.slots, slots);
    PairsAgree(st.slots, slots);
    GatherReads(st.slots, |slots|);
    TableHasSame(st.slots, slots);
  }

  lemma TableHasSame(table: seq<Option<Slot>>, slots: seq<Slot>)
    requires Tabled(table, slots) && Distinct(slots)
    ensures forall c :: Slot(true, c) in slots <==> exists i :: 0 <= i < |slots| && table[i].value == Slot(true, c)
  {
    forall c ensures Slot(true, c) in slots <==> exists i :: 0 <= i < |slots| && table[i].value == Slot(true, c) {
      if Slot(true, c) in slots {
        var j :| 0 <= j < |slots| && slots[j] == Slot(true, c);
        assert table[Index(slots[j]) - 1] == Some(slots[j]);
      }
      if i :| 0 <= i < |slots| && table[i].value == Slot(true, c) { var j := SlotAt(table, slots, i); }
    }
  }

  // ----- the whole response ------------------------------------------------------------------------------------

  /** The line announces n slots. */
  ghost predicate HeaderSays(line: string, n: nat) {
    LineList(line, 1) && Numeral(Fields(Body(line))[0], 10, UINT32_MAX) == Some(n)
  }

  predicate Bounded(response: string) {
    response != "" && |response| <= MAX_RESPONSE && NUL !in response
  }

  /** A header that announces 1 to 8 slots, and behind it one line per slot. */
  ghost predicate Lists(shown: seq<string>, slots: seq<Slot>) {
    && 1 <= |slots| <= 8 && |shown| == |slots| + 1 && HeaderSays(shown[0], |slots|)
    && forall j | 0 <= j < |slots| :: LineReports(shown[j + 1], slots[j])
  }

  ghost predicate Responds(response: string, slots: seq<Slot>) {
    Bounded(response) && Lists(Shown(Split(response, '\n')), slots) && Together(slots)
  }

  lemma HeadingIff(line: string, n: nat)
    ensures HeaderSays(line, n) <==> ClaimOf(line).Heading? && Uint(ClaimOf(line).field) == Some(n)
  {
    if HasPrefix(line) { LineSizes(line); }
  }

  lemma RecordIff(line: string, slot: Slot)
    ensures LineReports(line, slot) <==> ClaimOf(line) == Record(Read(slot))
  {
    LineReadIff(line, slot);
  }

  lemma RecordIsFit(line: string, slot: Slot)
    requires ClaimOf(line) == Record(Read(slot))
    ensures SlotFits(slot, Index(slot))
  {
    ClassifiedFits(line);
  }

  function Headed(n: nat): (st: Scan)
    requires n <= MAX_SLOTS
    ensures ScanOk(st)
  {
    Begin().(declared := n)
  }

  lemma BeginsWithHeading(claims: seq<Claim>) returns (n: nat)
    requires TakeClaims(Begin(), claims).Read? && TakeClaims(Begin(), claims).value.declared > 0
    ensures claims != [] && claims[0].Heading? && Uint(claims[0].field) == Some(n) && 1 <= n <= 8
    ensures TakeClaims(Begin(), claims) == TakeClaims(Headed(n), claims[1..])
  {
    n := Uint(claims[0].field).value;
  }

  lemma HeadingBegins(claims: seq<Claim>, n: nat)
    requires claims != [] && claims[0].Heading? && Uint(claims[0].field) == Some(n) && 1 <= n <= 8
    ensures TakeClaims(Begin(), claims) == TakeClaims(Headed(n), claims[1..])
  {
  }

  lemma TogetherFits(slots: seq<Slot>)
    requires 1 <= |slots| <= 8
    ensures Fit(Headed(|slots|), slots) <==> Distinct(slots) && forall j | 0 <= j < |slots| :: 1 <= Index(slots[j]) <= |slots|
  {
  }

  /** Records behind a header for as many: exactly those that go together conclude. */
  lemma RecordsConclude(slots: seq<Slot>)
    requires 1 <= |slots| <= 8 && AllFit(slots)
    ensures var taken := TakeClaims(Headed(|slots|), Recorded(slots));
            && (taken.Read? && Conclude(taken.value).Read? <==> Together(slots))
            && (Together(slots) ==>
                  && Conclude(taken.value).value.declaredSlots == |slots|
                  && forall c :: c in Conclude(taken.value).value.carriers <==> Slot(true, c) in slots)
  {
    var st := Headed(|slots|);
    RecordsTakenIff(st, slots);
    TogetherFits(slots);
    if Fit(st, slots) {
      var after := TakeClaims(st, Recorded(slots)).value;
      PlacedIsTabled(st, slots, after);
      ConcludesIff(after, slots);
    }
  }

  lemma ListsClaims(shown: seq<string>, slots: seq<Slot>)
    requires 1 <= |slots| <= 8 && |shown| == |slots| + 1
    ensures Lists(shown, slots) <==>
            && ClaimOf(shown[0]).Heading? && Uint(ClaimOf(shown[0]).field) == Some(|slots|)
            && Claims(shown)[1..] == Recorded(slots)
  {
    HeadingIff(shown[0], |slots|);
    forall j | 0 <= j < |slots| ensures LineReports(shown[j + 1], slots[j]) <==> Claims(shown)[1..][j] == Recorded(slots)[j] {
      RecordIff(shown[j + 1], slots[j]);
    }
  }

  lemma ListedFit(shown: seq<string>, slots: seq<Slot>)
    requires Lists(shown, slots)
    ensures AllFit(slots)
  {
    forall j | 0 <= j < |slots| ensures SlotFits(slots[j], Index(slots[j])) {
      RecordIff(shown[j + 1], slots[j]);
      RecordIsFit(shown[j + 1], slots[j]);
    }
  }

  lemma ParsedIsConcluded(response: string)
    requires Bounded(response)
    ensures var taken := TakeClaims(Begin(), Claims(Shown(Split(response, '\n'))));
            ParseText(response) == if taken.Rejected? then Rejected(taken.why) else Conclude(taken.value)
  {
    LinesAreClaims(Begin(), Split(response, '\n'));
  }

  lemma RespondingIsAccepted(response: string, slots: seq<Slot>)
    requires Responds(response, slots)
    ensures ParseText(response).Read? && ParseText(response).value.declaredSlots == |slots|
    ensures forall c :: c in ParseText(response).value.carriers <==> Slot(true, c) in slots
  {
    var shown := Shown(Split(response, '\n'));
    ParsedIsConcluded(response);
    ListsClaims(shown, slots);
    ListedFit(shown, slots);
    HeadingBegins(Claims(shown), |slots|);
    RecordsConclude(slots);
  }

  lemma CountIsDeclared(n: nat, slots: seq<Slot>)
    requires 1 <= n <= 8 && TakeClaims(Headed(n), Recorded(slots)).Read? && Conclude(TakeClaims(Headed(n), Recorded(slots)).value).Read?
    ensures |slots| == n
  {
    RecordsTakenIff(Headed(n), slots);
  }

  lemma AcceptedResponds(response: string) returns (slots: seq<Slot>)
    requires ParseText(response).Read?
    ensures Responds(response, slots)
  {
    var shown := Shown(Split(response, '\n'));
    var claims := Claims(shown);
    ParsedIsConcluded(response);
    var n := BeginsWithHeading(claims);
    slots := OnlyRecords(Headed(n), claims[1..]);
    CountIsDeclared(n, slots);
    ListsClaims(shown, slots);
    ListedFit(shown, slots);
    RecordsConclude(slots);
  }

  /** A response is accepted exactly when it is within bounds, its lines are a header for n slots
      and n lines that report slots, in any order, and these go together; the result then has
      exactly the active ones. */
  lemma AcceptedIff(response: string)
    ensures ParseText(response).Read? <==> exists slots :: Responds(response, slots)
    ensures forall slots | Responds(response, slots) ::
              && ParseText(response).value.declaredSlots == |slots|
              && forall c :: c in ParseText(response).value.carriers <==> Slot(true, c) in slots
  {
    if ParseText(response).Read? { var slots := AcceptedResponds(response); }
    forall slots | Responds(response, slots)
      ensures ParseText(response).Read? && ParseText(response).value.declaredSlots == |slots|
      ensures forall c :: c in ParseText(response).value.carriers <==> Slot(true, c) in slots
    {
      RespondingIsAccepted(response, slots);
    }
  }
}
