/** What an accepted GTCAINFO response guarantees, and that the order of its records does not
    matter. */
module CarrierTheorems {
  import opened Common
  import opened CText
  import opened Numerals
  import opened EarfcnTable
  import opened CarrierGrammar

  // ----- records -----------------------------------------------------------------------------------

  /** Slot 1 is the primary with its identity; later slots have no uplink; an active carrier's
      band is the one that the independent channel table gives. */
  ghost predicate SlotFits(slot: Slot, index: nat) {
    && slot.carrier.index == index && 1 <= index <= MAX_SLOTS
    && (IsPrimary(slot.carrier) <==> index == 1)
    && (index == 1 ==> slot.active && UplinkActive(slot.carrier))
    && (index > 1 ==> !UplinkActive(slot.carrier))
    && (slot.active ==> EarfcnToBand(slot.carrier.radio.dlEarfcn) == Some(slot.carrier.radio.band))
  }

  lemma CommonFits(r: Raw, primary: bool)
    requires CommonCarrier(r, primary).Read?
    ensures var radio := CommonCarrier(r, primary).value;
            && EarfcnToBand(radio.dlEarfcn) == Some(radio.band)
            && (primary ==> radio.ulBandwidth.Some?)
  {
    TablesAgree(r.band, r.dlEarfcn);
  }

  lemma RecordFits(fields: seq<string>, count: nat)
    requires count == FieldCount(fields, PRIMARY_FIELDS + 1) && (count == PRIMARY_FIELDS || count == SECONDARY_FIELDS ==> count == |fields|)
    requires RecordOf(fields, count).Read?
    ensures SlotFits(RecordOf(fields, count).value, RecordOf(fields, count).value.carrier.index)
  {
    if count == PRIMARY_FIELDS {
      CommonFits(RawOf(fields, 9, 6), true);
    } else {
      var raw := RawOf(fields, 5, 2);
      if !IsIdle(raw) { CommonFits(raw, false); }
    }
  }

  /** What a non-blank line is, whatever was seen before it. */
  datatype LineKind = HeaderLine(field: string) | RecordLine(record: Reading<Slot>)

  function Classify(line: string): LineKind
    requires HasPrefix(line)
  {
    var fields := Fields(Body(line));
    var count := FieldCount(fields, PRIMARY_FIELDS + 1);
    assert count == PRIMARY_FIELDS || count == SECONDARY_FIELDS || count == 1 ==> count == |fields| by {
      FieldsStep(Body(line));
      CountFits(fields, PRIMARY_FIELDS + 1);
    }
    if count == 1 then HeaderLine(fields[0]) else RecordLine(RecordOf(fields, count))
  }

  lemma ClassifiedFits(line: string)
    requires HasPrefix(line) && Classify(line).RecordLine? && Classify(line).record.Read?
    ensures SlotFits(Classify(line).record.value, Classify(line).record.value.carrier.index)
  {
    var fields := Fields(Body(line));
    FieldsStep(Body(line));
    CountFits(fields, PRIMARY_FIELDS + 1);
    RecordFits(fields, FieldCount(fields, PRIMARY_FIELDS + 1));
  }

  // ----- scans -----------------------------------------------------------------------------------------

  ghost predicate SlotsFit(slots: seq<Option<Slot>>) {
    forall k | 0 <= k < |slots| && slots[k].Some? :: SlotFits(slots[k].value, k + 1)
  }

  lemma LineKeepsSlots(st: Scan, raw: string)
    requires ScanOk(st) && SlotsFit(st.slots) && TakeRaw(st, raw).Read?
    ensures SlotsFit(TakeRaw(st, raw).value.slots)
  {
    var line := Cleaned(raw);
    if line != "" {
      if Classify(line).RecordLine? { ClassifiedFits(line); }
    }
  }

  lemma {:induction false} LinesKeepSlots(st: Scan, lines: seq<string>)
    requires ScanOk(st) && SlotsFit(st.slots) && TakeLines(st, lines).Read?
    ensures SlotsFit(TakeLines(st, lines).value.slots)
    decreases |lines|
  {
    if lines != [] {
      LineKeepsSlots(st, lines[0]);
      LinesKeepSlots(TakeRaw(st, lines[0]).value, lines[1..]);
    }
  }

  // ----- the result ----------------------------------------------------------------------------------------

  /** Carriers of the first `n` slots: in increasing slot order, no two the same. */
  ghost predicate GatheredFrom(slots: seq<Option<Slot>>, n: nat, carriers: seq<Carrier>)
    requires n <= |slots|
  {
    && (forall k | 0 <= k < |carriers| :: FromSlot(slots, n, carriers[k]))
    && (forall j, k | 0 <= j < k < |carriers| :: carriers[j].index < carriers[k].index && !Same(carriers[k], carriers[j]))
    && (forall i | 0 <= i < n :: slots[i].Some? && (slots[i].value.active ==> slots[i].value.carrier in carriers))
  }

  ghost predicate FromSlot(slots: seq<Option<Slot>>, n: nat, c: Carrier)
    requires n <= |slots|
  {
    1 <= c.index <= n && slots[c.index - 1] == Some(Slot(true, c))
  }

  lemma {:induction false} GatherIs(slots: seq<Option<Slot>>, n: nat)
    requires n <= |slots| && SlotsFit(slots) && Gather(slots, n).Read?
    ensures GatheredFrom(slots, n, Gather(slots, n).value)
  {
    if n > 0 {
      GatherIs(slots, n - 1);
      var before, carriers := Gather(slots, n - 1).value, Gather(slots, n).value;
      assert SlotFits(slots[n - 1].value, n);
      forall k | 0 <= k < |carriers| ensures FromSlot(slots, n, carriers[k]) {
        if k < |before| { assert FromSlot(slots, n - 1, before[k]); }
      }
      forall j, k | 0 <= j < k < |carriers|
        ensures carriers[j].index < carriers[k].index && !Same(carriers[k], carriers[j])
      {
        assert FromSlot(slots, n - 1, before[j]);
      }
    }
  }

  /** The topology an accepted response reports. */
  ghost predicate Topology(info: Info) {
    && 1 <= |info.carriers| <= info.declaredSlots <= MAX_SLOTS
    && IsPrimary(info.carriers[0]) && info.carriers[0].index == 1 && UplinkActive(info.carriers[0])
    && (forall j, k | 0 <= j < k < |info.carriers| ::
          info.carriers[j].index < info.carriers[k].index && !Same(info.carriers[k], info.carriers[j]))
    && (forall k | 0 <= k < |info.carriers| ::
          EarfcnToBand(info.carriers[k].radio.dlEarfcn) == Some(info.carriers[k].radio.band))
    && (forall k | 1 <= k < |info.carriers| :: SecondaryFits(info.carriers[k], info.carriers[0]))
  }

  ghost predicate SecondaryFits(c: Carrier, primary: Carrier) {
    !IsPrimary(c) && !UplinkActive(c) && c.radio.ulEarfcn == primary.radio.ulEarfcn
  }

  lemma IndexBounds(carriers: seq<Carrier>, n: nat, k: nat)
    requires forall i | 0 <= i < |carriers| :: 1 <= carriers[i].index <= n
    requires forall i, j | 0 <= i < j < |carriers| :: carriers[i].index < carriers[j].index
    requires k < |carriers|
    ensures k < carriers[k].index
  {
    if k > 0 { IndexBounds(carriers, n, k - 1); }
  }

  lemma ConcludedTopology(st: Scan)
    requires ScanOk(st) && SlotsFit(st.slots) && Conclude(st).Read?
    ensures Topology(Conclude(st).value)
  {
    var carriers, slots := Conclude(st).value.carriers, st.slots;
    GatherIs(slots, st.declared);
    forall k | 0 <= k < |carriers| ensures 1 <= carriers[k].index <= st.declared && SlotFits(Slot(true, carriers[k]), carriers[k].index) {
      assert FromSlot(slots, st.declared, carriers[k]);
    }
    assert forall i, j | 0 <= i < j < |carriers| :: carriers[i].index < carriers[j].index;
    IndexBounds(carriers, st.declared, |carriers| - 1);
    forall k | 1 <= k < |carriers| ensures SecondaryFits(carriers[k], carriers[0]) {
      assert FromSlot(slots, st.declared, carriers[k]);
      assert carriers[0].index < carriers[k].index;
      var i := carriers[k].index - 1;
      assert RadioAt(slots, i) == carriers[k].radio && RadioAt(slots, 0) == carriers[0].radio;
    }
  }

  /** An accepted response reports the primary first, strictly increasing slots, no carrier
      twice, uplink only on the primary, every secondary on the primary's uplink channel, and
      bands that agree with the channel table. */
  lemma AcceptedTopology(response: string)
    requires ParseText(response).Read?
    ensures Topology(ParseText(response).value)
  {
    var lines := Split(response, '\n');
    LinesKeepSlots(Begin(), lines);
    ConcludedTopology(TakeLines(Begin(), lines).value);
  }

  // ----- the order of the records ----------------------------------------------------------------------------

  lemma SwapPlaces(st: Scan, a: Reading<Slot>, b: Reading<Slot>)
    requires ScanOk(st) && Records(st, a).Read? && Records(Records(st, a).value, b).Read?
    ensures Records(st, b).Read?
    ensures Records(Records(st, b).value, a) == Records(Records(st, a).value, b)
  {
    var i, j := a.value.carrier.index - 1, b.value.carrier.index - 1;
    assert st.slots[i := Some(a.value)][j := Some(b.value)] == st.slots[j := Some(b.value)][i := Some(a.value)];
  }

  lemma RecordTaken(st: Scan, raw: string)
    requires ScanOk(st) && Cleaned(raw) != "" && HasPrefix(Cleaned(raw)) && Classify(Cleaned(raw)).RecordLine?
    ensures TakeRaw(st, raw) == Records(st, Classify(Cleaned(raw)).record)
  {
  }

  lemma SwapLines(st: Scan, x: string, y: string)
    requires ScanOk(st) && st.declared != 0 && TakeRaw(st, x).Read? && TakeRaw(TakeRaw(st, x).value, y).Read?
    ensures TakeRaw(st, y).Read? && TakeRaw(TakeRaw(st, y).value, x) == TakeRaw(TakeRaw(st, x).value, y)
    ensures TakeRaw(st, y).value.declared == st.declared
  {
    if Cleaned(x) != "" && Cleaned(y) != "" {
      SwapPlaces(st, Classify(Cleaned(x)).record, Classify(Cleaned(y)).record);
      RecordTaken(st, y);
      RecordTaken(TakeRaw(st, y).value, x);
    }
  }

  function Without(lines: seq<string>, i: nat): seq<string>
    requires i < |lines|
  {
    lines[..i] + lines[i + 1..]
  }

  /** A line read first may as well be read at position i. */
  lemma {:induction false} MoveFromFront(st: Scan, lines: seq<string>, i: nat)
    requires ScanOk(st) && st.declared != 0 && i < |lines|
    requires TakeLines(st, [lines[i]] + Without(lines, i)).Read?
    ensures TakeLines(st, lines) == TakeLines(st, [lines[i]] + Without(lines, i))
    decreases i
  {
    if i == 0 {
      assert lines == [lines[0]] + Without(lines, 0);
    } else {
      var x, y, rest := lines[i], lines[0], Without(lines[1..], i - 1);
      assert Without(lines, i) == [y] + rest;
      assert lines == [y] + lines[1..] && lines[1..][i - 1] == x;
      TakeFirst(st, x, [y] + rest);
      TakeFirst(TakeRaw(st, x).value, y, rest);
      SwapLines(st, x, y);
      var st' := TakeRaw(st, y).value;
      TakeFirst(st', x, rest);
      MoveFromFront(st', lines[1..], i - 1);
      TakeFirst(st, y, lines[1..]);
    }
  }

  /** Once the header is read, an accepted sequence of lines may come in any order. */
  lemma {:induction false} LinesCommute(st: Scan, a: seq<string>, b: seq<string>)
    requires ScanOk(st) && st.declared != 0 && multiset(a) == multiset(b) && TakeLines(st, a).Read?
    ensures TakeLines(st, b) == TakeLines(st, a)
    decreases |a|
  {
    if a == [] {
      assert |multiset(b)| == |b|;
    } else {
      var x, rest := a[0], a[1..];
      assert a == [x] + rest;
      assert x in multiset(b);
      var i :| 0 <= i < |b| && b[i] == x;
      RestsMatch(a, b, i);
      TakeFirst(st, x, rest);
      LinesCommute(TakeRaw(st, x).value, rest, Without(b, i));
      TakeFirst(st, x, Without(b, i));
      MoveFromFront(st, b, i);
    }
  }

  lemma RestsMatch(a: seq<string>, b: seq<string>, i: nat)
    requires a != [] && i < |b| && b[i] == a[0] && multiset(a) == multiset(b)
    ensures multiset(a[1..]) == multiset(Without(b, i))
  {
    assert a == [a[0]] + a[1..];
    assert b == b[..i] + [b[i]] + b[i + 1..];
    assert multiset(a[1..]) == multiset(a) - multiset{a[0]};
    assert multiset(Without(b, i)) == multiset(b) - multiset{a[0]};
  }

  lemma {:induction false} TakeSplits(st: Scan, a: seq<string>, b: seq<string>)
    requires ScanOk(st)
    ensures TakeLines(st, a + b) ==
            if TakeLines(st, a).Rejected? then TakeLines(st, a) else TakeLines(TakeLines(st, a).value, b)
    decreases |a|
  {
    if a == [] {
      assert a + b == b;
    } else {
      assert (a + b)[1..] == a[1..] + b;
      if TakeRaw(st, a[0]).Read? { TakeSplits(TakeRaw(st, a[0]).value, a[1..], b); }
    }
  }

  lemma LinesInAnyOrder(head: seq<string>, a: seq<string>, b: seq<string>)
    requires multiset(a) == multiset(b) && ParseLines(head + a).Read?
    requires TakeLines(Begin(), head).Read? && TakeLines(Begin(), head).value.declared != 0
    ensures ParseLines(head + b) == ParseLines(head + a)
  {
    TakeSplits(Begin(), head, a);
    TakeSplits(Begin(), head, b);
    LinesCommute(TakeLines(Begin(), head).value, a, b);
  }

  // ----- the response with its lines in another order -------------------------------------------------

  function Letters(lines: seq<string>): nat {
    if lines == [] then 0 else |lines[0]| + Letters(lines[1..])
  }

  lemma {:induction false} LettersAdd(a: seq<string>, b: seq<string>)
    ensures Letters(a + b) == Letters(a) + Letters(b)
  {
    if a == [] {
      assert a + b == b;
    } else {
      assert (a + b)[1..] == a[1..] + b;
      LettersAdd(a[1..], b);
    }
  }

  lemma {:induction false} LettersPermute(a: seq<string>, b: seq<string>)
    requires multiset(a) == multiset(b)
    ensures Letters(a) == Letters(b) && |a| == |b|
    decreases |a|
  {
    assert |a| == |multiset(a)| == |multiset(b)| == |b|;
    if a != [] {
      assert a[0] in multiset(b);
      var i :| 0 <= i < |b| && b[i] == a[0];
      RestsMatch(a, b, i);
      LettersPermute(a[1..], Without(b, i));
      assert b == b[..i] + ([b[i]] + b[i + 1..]);
      LettersAdd(b[..i], [b[i]] + b[i + 1..]);
      LettersAdd(b[..i], b[i + 1..]);
    }
  }

  lemma {:induction false} JoinSize(lines: seq<string>)
    requires lines != []
    ensures |Join(lines, '\n')| == Letters(lines) + |lines| - 1
    ensures NUL in Join(lines, '\n') <==> exists i | 0 <= i < |lines| :: NUL in lines[i]
  {
    if |lines| > 1 {
      var rest := lines[1..];
      JoinSize(rest);
      assert forall i | 0 <= i < |rest| :: rest[i] == lines[i + 1];
      if i :| 0 <= i < |lines| && NUL in lines[i] {
        if i > 0 { assert NUL in rest[i - 1]; }
      }
    }
  }

  /** An accepted response stays accepted, with the same topology, when the lines that follow
      its header are put in any other order. */
  lemma RecordOrderIsIrrelevant(response: string, head: seq<string>, a: seq<string>, b: seq<string>)
    requires ParseText(response).Read? && Split(response, '\n') == head + a && multiset(a) == multiset(b)
    requires TakeLines(Begin(), head).Read? && TakeLines(Begin(), head).value.declared != 0
    ensures head + b != [] && ParseText(Join(head + b, '\n')) == ParseText(response)
  {
    var lines, other := head + a, head + b;
    SplitJoins(response, '\n');
    LettersPermute(a, b);
    LettersAdd(head, a);
    LettersAdd(head, b);
    forall i | 0 <= i < |other| ensures other[i] in lines {
      if i >= |head| { assert b[i - |head|] in multiset(a); }
    }
    JoinSize(lines);
    JoinSize(other);
    JoinSplits(other, '\n');
    LinesInAnyOrder(head, a, b);
  }
}
