/** The GTCAINFO parser as the source runs it: a private copy of the response is cut in place,
    line by line and field by field, and a table of slots is filled by index. */
module CarrierParser {
  import opened Common
  import opened CText
  import opened Numerals
  import opened CarrierGrammar

  // ----- reading strings out of the buffer ------------------------------------------------------

  method ReadFields(buf: array<char>, starts: seq<nat>, ghost ends: seq<nat>, ghost fields: seq<string>, ghost p: nat, ghost limit: nat)
    returns (texts: seq<string>)
    requires HoldsFields(buf[..], starts, ends, fields, p, limit) && |starts| == |fields|
    ensures texts == fields
  {
    texts := [];
    var i := 0;
    while i < |starts|
      invariant i <= |starts| && texts == fields[..i]
    {
      assert HoldsField(buf[..], starts[i], ends[i], fields[i]);
      var s := ReadString(buf, starts[i], ends[i]);
      assert s == buf[..][starts[i]..ends[i]];
      texts := texts + [s];
      i := i + 1;
    }
  }

  /** Fields of a line behind its prefix; `prefixed` tells whether it has one. */
  method LineFields(buf: array<char>, q: nat, ghost f: nat) returns (prefixed: bool, count: nat, fields: seq<string>)
    requires IsString(buf[..], q, f)
    modifies buf
    ensures var line := old(buf[q..f]);
            && (prefixed <==> HasPrefix(line))
            && (prefixed ==>
                  && count == FieldCount(Fields(Body(line)), PRIMARY_FIELDS + 1)
                  && (1 <= count <= PRIMARY_FIELDS + 1 ==> fields == Fields(Body(line))))
    ensures WritesWithin(old(buf[..]), buf[..], q, f)
  {
    var line := ReadString(buf, q, f);
    prefixed, count, fields := HasPrefix(line), 0, [];
    if !prefixed {
      return;
    }
    ghost var whole := buf[..];
    assert buf[q + |PREFIX|..f] == line[|PREFIX|..];
    var b, g := TrimInPlace(buf, q + |PREFIX|, f);
    ghost var cut := buf[..];
    assert WritesWithin(whole, cut, q, f);
    var n, starts, ends := SplitFields(buf, b, PRIMARY_FIELDS + 1, g);
    count := n;
    assert WritesWithin(cut, buf[..], q, f);
    WritesCompose(whole, cut, buf[..], q, q, f);
    if 1 <= count <= PRIMARY_FIELDS + 1 {
      fields := ReadFields(buf, starts, ends, Fields(Body(line)), b, g + 1);
    }
  }

  // ----- one record ---------------------------------------------------------------------------------

  /** Numbers of a record: all fields but the signed one, then the signed one. */
  method ParseNumbers(fields: seq<string>, signed: nat) returns (ok: bool, values: seq<nat>, sinr: int)
    requires signed < |fields|
    ensures ok <==> AllNumbers(fields, signed)
    ensures ok ==> |values| == |fields| && (forall i | 0 <= i < |fields| && i != signed :: values[i] == Num(fields, i))
    ensures ok ==> Some(sinr) == Signed(fields[signed], false)
  {
    ok, values, sinr := false, [], 0;
    var index := 0;
    while index < |fields|
      invariant index <= |fields| && |values| == index
      invariant forall i | 0 <= i < index && i != signed :: Uint(fields[i]) == Some(values[i])
    {
      var number := Some(0);
      if index != signed {
        number := ParseUint32Decimal(fields[index]);
      }
      if number.None? {
        return;
      }
      values := values + [number.value];
      index := index + 1;
    }
    var reading := ParseInt32(fields[signed], false);
    if reading.Some? {
      ok, sinr := true, reading.value;
    }
  }

  method ParsePrimary(fields: seq<string>) returns (record: Reading<Slot>)
    requires |fields| == PRIMARY_FIELDS
    ensures record == PrimaryRecord(fields)
  {
    var ok, v, sinr := ParseNumbers(fields, 9);
    if !ok {
      return Rejected(Malformed);
    }
    if v[0] != 1 {
      return Rejected(OutOfRange);
    }
    if v[2] == 65535 || v[4] == 65535 {
      return Rejected(Sentinel);
    }
    if v[2] == 0 || v[2] > 999 || v[3] > 999 || v[4] > 65535 || v[5] > CELL_ID_MAX {
      return Rejected(OutOfRange);
    }
    var radio := CommonCarrier(Raw(v[1], v[6], v[7], v[8], sinr, v[10], v[11], v[12], v[13]), true);
    if radio.Rejected? {
      return Rejected(radio.why);
    }
    record := Read(Slot(true, Carrier(1, Some(Identity(v[2], v[3], v[4], v[5])), radio.value)));
  }

  method ParseSecondary(fields: seq<string>) returns (record: Reading<Slot>)
    requires |fields| == SECONDARY_FIELDS
    ensures record == SecondaryRecord(fields)
  {
    var ok, v, sinr := ParseNumbers(fields, 5);
    if !ok {
      return Rejected(Malformed);
    }
    if v[0] < 2 || v[0] > MAX_SLOTS {
      return Rejected(OutOfRange);
    }
    var raw := Raw(v[1], v[2], v[3], v[4], sinr, v[6], v[7], v[8], v[9]);
    if IsIdle(raw) {
      if raw.ulEarfcn > LTE_EARFCN_MAX {
        return Rejected(Sentinel);
      }
      return Read(Slot(false, Carrier(v[0], None, IdleRadio(raw.ulEarfcn))));
    }
    var radio := CommonCarrier(raw, false);
    if radio.Rejected? {
      return Rejected(radio.why);
    }
    if radio.value.ulBandwidth.Some? {
      return Rejected(OutOfRange);
    }
    record := Read(Slot(true, Carrier(v[0], None, radio.value)));
  }

  // ----- the scan ---------------------------------------------------------------------------------------

  class CarrierScan {
    var declared: nat
    var records: nat
    const slots: array<Option<Slot>>

    constructor ()
      ensures fresh(slots) && Value() == Begin() && ScanOk(Value())
    {
      declared, records := 0, 0;
      slots := new Option<Slot>[MAX_SLOTS](_ => None);
    }

    ghost function Value(): Scan
      reads this, slots
    {
      Scan(declared, records, slots[..])
    }

    /** What a step must leave behind when its specification gives `outcome`. */
    ghost predicate Follows(outcome: Reading<Scan>, fault: Option<Fault>)
      reads this, slots
    {
      match outcome
      case Rejected(why) => fault == Some(why)
      case Read(st) => fault.None? && Value() == st
    }

    method TakeHeader(field: string) returns (fault: Option<Fault>)
      requires ScanOk(Value())
      modifies this`declared
      ensures Follows(Header(old(Value()), field), fault)
    {
      var number := ParseUint32Decimal(field);
      if declared != 0 || records != 0 || number.None? {
        return Some(Malformed);
      }
      if number.value == 0 {
        return Some(OutOfRange);
      }
      if number.value > MAX_SLOTS {
        return Some(TooMany);
      }
      declared := number.value;
      fault := None;
    }

    method Fill(slot: Slot) returns (fault: Option<Fault>)
      requires ScanOk(Value())
      modifies this`records, slots
      ensures Follows(Place(old(Value()), slot), fault)
    {
      var index := slot.carrier.index;
      if index > declared {
        return Some(CountMismatch);
      }
      if index == 0 || index > MAX_SLOTS {
        return Some(Malformed);
      }
      if slots[index - 1].Some? {
        return Some(Duplicate);
      }
      slots[index - 1] := Some(slot);
      records := records + 1;
      fault := None;
    }

    method TakeRecord(fields: seq<string>, count: nat, ghost all: seq<string>) returns (fault: Option<Fault>)
      requires ScanOk(Value())
      requires count == FieldCount(all, PRIMARY_FIELDS + 1)
      requires count == PRIMARY_FIELDS || count == SECONDARY_FIELDS ==> fields == all && count == |all|
      modifies this`records, slots
      ensures Follows(Records(old(Value()), RecordOf(all, count)), fault)
    {
      if declared == 0 {
        return Some(Malformed);
      }
      if records >= declared {
        return Some(CountMismatch);
      }
      var record: Reading<Slot> := Rejected(Malformed);
      if count == PRIMARY_FIELDS {
        record := ParsePrimary(fields);
      } else if count == SECONDARY_FIELDS {
        record := ParseSecondary(fields);
      }
      if record.Rejected? {
        return Some(record.why);
      }
      fault := Fill(record.value);
    }

    /** One line of the response, cut and read in place. */
    method ReadLine(buf: array<char>, p: nat, ghost e: nat, ghost first: Reading<Scan>) returns (fault: Option<Fault>)
      requires ScanOk(Value()) && IsString(buf[..], p, e) && first == TakeRaw(Value(), buf[p..e])
      modifies this, slots, buf
      ensures Follows(first, fault) && (first.Read? ==> ScanOk(first.value))
      ensures WritesWithin(old(buf[..]), buf[..], p, e)
    {
      ghost var whole := buf[..];
      var q, f := CleanLine(buf, p, e);
      ghost var clean := buf[..];
      ghost var line := buf[q..f];
      assert buf[..][q..f] == line;
      if buf[q] == NUL {
        assert line == "";
        return None;
      }
      var prefixed, count, fields := LineFields(buf, q, f);
      assert WritesWithin(clean, buf[..], p, e);
      WritesCompose(whole, clean, buf[..], p, p, e);
      if !prefixed {
        return Some(Malformed);
      }
      FieldsStep(Body(line));
      CountFits(Fields(Body(line)), PRIMARY_FIELDS + 1);
      if count == 1 {
        fault := TakeHeader(fields[0]);
      } else {
        fault := TakeRecord(fields, count, Fields(Body(line)));
      }
    }

    method UplinksMatch() returns (agree: bool)
      requires ScanOk(Value()) && declared > 0
      ensures agree <==> UplinksAgree(slots[..], declared)
    {
      var index := 1;
      while index < declared
        invariant 1 <= index <= declared
        invariant forall i | 1 <= i < index ::
                    RadioAt(slots[..], i).ulBandwidth.Some? || RadioAt(slots[..], i).ulEarfcn == RadioAt(slots[..], 0).ulEarfcn
      {
        var radio := RadioAt(slots[..], index);
        if radio.ulBandwidth.None? && radio.ulEarfcn != RadioAt(slots[..], 0).ulEarfcn {
          return false;
        }
        index := index + 1;
      }
      agree := true;
    }

    /** Is the active carrier at `index` the same as an active one before it? */
    method SeenBefore(index: nat, ghost before: seq<Carrier>) returns (repeated: bool)
      requires ScanOk(Value()) && index < MAX_SLOTS && slots[index].Some?
      requires Gather(slots[..], index) == Read(before)
      ensures repeated <==> Repeats(before, slots[index].value.carrier)
    {
      var carrier := slots[index].value.carrier;
      var compare := 0;
      ghost var met: seq<Carrier> := [];
      while compare < index
        invariant compare <= index
        invariant Gather(slots[..], compare) == Read(met)
        invariant !Repeats(met, carrier)
      {
        GatherPrefix(slots[..], compare + 1, index);
        assert slots[..][compare] == slots[compare];
        if slots[compare].value.active {
          if Same(carrier, slots[compare].value.carrier) {
            met := met + [slots[compare].value.carrier];
            GatherExtends(slots[..], compare + 1, index, met, before);
            assert Same(carrier, before[|met| - 1]);
            return true;
          }
          met := met + [slots[compare].value.carrier];
        }
        compare := compare + 1;
      }
      repeated := false;
    }

    method Collect() returns (fault: Option<Fault>, carriers: seq<Carrier>)
      requires ScanOk(Value())
      ensures match Gather(slots[..], declared)
              case Rejected(why) => fault == Some(why)
              case Read(all) => fault.None? && carriers == all
    {
      carriers, fault := [], None;
      var index := 0;
      while index < declared
        invariant index <= declared && fault.None? && Gather(slots[..], index) == Read(carriers)
      {
        assert slots[..][index] == slots[index];
        if slots[index].None? {
          GatherStops(slots[..], index + 1, declared);
          return Some(CountMismatch), carriers;
        }
        if slots[index].value.active {
          var repeated := SeenBefore(index, carriers);
          if repeated {
            GatherStops(slots[..], index + 1, declared);
            return Some(Duplicate), carriers;
          }
          carriers := carriers + [slots[index].value.carrier];
        }
        index := index + 1;
      }
    }

    method Finish() returns (fault: Option<Fault>, info: Info)
      requires ScanOk(Value())
      ensures Reports(Conclude(Value()), fault, info)
    {
      info := ZEROED;
      assert slots[..][0] == slots[0];
      if declared == 0 {
        return Some(Empty), info;
      }
      if slots[0].None? || !slots[0].value.active {
        return Some(MissingPrimary), info;
      }
      if records != declared {
        return Some(CountMismatch), info;
      }
      var agree := UplinksMatch();
      if !agree {
        return Some(OutOfRange), info;
      }
      var carriers;
      fault, carriers := Collect();
      if fault.None? {
        info := Info(carriers, declared);
      }
    }
  }

  /** Result code and output of a run whose specification gives `outcome`: every rejection
      leaves the output zeroed. */
  ghost predicate Reports(outcome: Reading<Info>, fault: Option<Fault>, info: Info) {
    match outcome
    case Rejected(why) => fault == Some(why) && info == ZEROED
    case Read(value) => fault.None? && info == value
  }

  lemma {:induction false} GatherStops(slots: seq<Option<Slot>>, n: nat, m: nat)
    requires n <= m <= |slots| && Gather(slots, n).Rejected?
    ensures Gather(slots, m) == Gather(slots, n)
  {
    if n < m { GatherStops(slots, n, m - 1); }
  }

  lemma GatherPrefix(slots: seq<Option<Slot>>, n: nat, m: nat)
    requires n <= m <= |slots| && Gather(slots, m).Read?
    ensures Gather(slots, n).Read?
  {
    if Gather(slots, n).Rejected? { GatherStops(slots, n, m); }
  }

  lemma {:induction false} GatherExtends(slots: seq<Option<Slot>>, n: nat, m: nat, some: seq<Carrier>, all: seq<Carrier>)
    requires n <= m <= |slots| && Gather(slots, n) == Read(some) && Gather(slots, m) == Read(all)
    ensures |some| <= |all| && all[..|some|] == some
  {
    if n < m {
      GatherPrefix(slots, m - 1, m);
      GatherExtends(slots, n, m - 1, some, Gather(slots, m - 1).value);
    }
  }

  // ----- the whole response -------------------------------------------------------------------------------

  lemma LinesStep(st: Scan, text: string)
    requires ScanOk(st)
    ensures TakeLines(st, Split(text, '\n')) == AfterFirst(TakeRaw(st, text[..Find(text, '\n')]), Rest(text, '\n'))
  {
    SplitIs(text, '\n');
    TakeFirst(st, text[..Find(text, '\n')], Rest(text, '\n'));
  }

  /** Read the line at `line` and step to the next one. */
  method NextLine(scan: CarrierScan, buf: array<char>, line: nat, ghost e: nat, ghost goal: Reading<Scan>)
    returns (fault: Option<Fault>, next: nat, more: bool)
    requires ScanOk(scan.Value()) && IsString(buf[..], line, e)
    requires goal == TakeLines(scan.Value(), Split(buf[line..e], '\n'))
    modifies scan, scan.slots, buf
    ensures fault.Some? ==> goal == Rejected(fault.value)
    ensures fault.None? ==> ScanOk(scan.Value()) && line < next
    ensures fault.None? && more ==>
              next <= e && IsString(buf[..], next, e) && goal == TakeLines(scan.Value(), Split(buf[next..e], '\n'))
    ensures fault.None? && !more ==> goal == Read(scan.Value())
  {
    ghost var text := buf[line..e];
    LinesStep(scan.Value(), text);
    ghost var first := TakeRaw(scan.Value(), text[..Find(text, '\n')]);
    var end, again := CutPiece(buf, line, '\n', e);
    ghost var cut := buf[..];
    fault := scan.ReadLine(buf, line, end, first);
    next, more := end + 1, again;
    if fault.Some? {
      return;
    }
    TailSurvives(cut, buf[..], line, end, e);
    if more {
      assert buf[..][next..e] == buf[next..e] == text[next - line..];
    }
  }

  /** The line loop over the copy. */
  method ReadLines(scan: CarrierScan, buf: array<char>, ghost e: nat) returns (fault: Option<Fault>)
    requires ScanOk(scan.Value()) && IsString(buf[..], 0, e)
    modifies scan, scan.slots, buf
    ensures scan.Follows(TakeLines(old(scan.Value()), Split(old(buf[0..e]), '\n')), fault)
  {
    ghost var goal := TakeLines(scan.Value(), Split(buf[0..e], '\n'));
    var line, more := 0, true;
    fault := None;
    while more
      invariant ScanOk(scan.Value()) && fault.None?
      invariant more ==> line <= e && IsString(buf[..], line, e) && goal == TakeLines(scan.Value(), Split(buf[line..e], '\n'))
      invariant !more ==> goal == Read(scan.Value())
      decreases if more then e + 1 - line else 0
    {
      fault, line, more := NextLine(scan, buf, line, e, goal);
      if fault.Some? {
        return;
      }
    }
  }

  method Parse(response: string) returns (fault: Option<Fault>, info: Info)
    ensures Reports(ParseText(response), fault, info)
  {
    info := ZEROED;
    if response == "" {
      return Some(Empty), info;
    }
    if |response| > MAX_RESPONSE {
      return Some(Oversized), info;
    }
    if NUL in response {
      return Some(Malformed), info;
    }
    var buf := CopyResponse(response);
    var scan := new CarrierScan();
    fault := ReadLines(scan, buf, |response|);
    if fault.Some? {
      return;
    }
    fault, info := scan.Finish();
  }
}
