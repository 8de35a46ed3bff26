/** The GTCAINFO response grammar (l850_ca.c) as functions of text: one header line with the
    number of slots, then one record per slot, in any order. */
module CarrierGrammar {
  import opened Common
  import opened CText
  import opened Numerals
  import opened EarfcnTable

  const PREFIX: string := "+GTCAINFO:"
  const PRIMARY_FIELDS: nat := 14
  const SECONDARY_FIELDS: nat := 10
  const MAX_SLOTS: nat := 8
  const MAX_RESPONSE: nat := 4096
  const CELL_ID_MAX: nat := 0x0FFF_FFFF
  const LTE_EARFCN_MAX: nat := 262143

  datatype Fault =
    | Empty | Oversized | Malformed | Sentinel | OutOfRange | TooMany | Duplicate | CountMismatch | MissingPrimary

  datatype Identity = Identity(mcc: nat, mnc: nat, tac: nat, cellId: nat)

  /** The measured part of a carrier, in the units of the reply. */
  datatype Radio = Radio(
    band: nat, pci: nat, rsrpDbm: int, rsrqTenthsDb: int, sinrTenthsDb: Option<int>,
    dlEarfcn: nat, ulEarfcn: nat, dlBandwidth: nat, ulBandwidth: Option<nat>)

  datatype Carrier = Carrier(index: nat, identity: Option<Identity>, radio: Radio)

  predicate IsPrimary(c: Carrier) {
    c.identity.Some?
  }

  predicate UplinkActive(c: Carrier) {
    c.radio.ulBandwidth.Some?
  }

  datatype Slot = Slot(active: bool, carrier: Carrier)

  datatype Info = Info(carriers: seq<Carrier>, declaredSlots: nat)

  const ZEROED: Info := Info([], 0)

  datatype Reading<T> = Rejected(why: Fault) | Read(value: T)

  // ----- one record ----------------------------------------------------------------------------

  function Uint(s: string): Option<nat> {
    Numeral(s, 10, UINT32_MAX)
  }

  /** Every field but the signed one at `signed` is an unsigned number. */
  predicate AllNumbers(fields: seq<string>, signed: nat) {
    && (forall i | 0 <= i < |fields| && i != signed :: Uint(fields[i]).Some?)
    && signed < |fields| && Signed(fields[signed], false).Some?
  }

  function Num(fields: seq<string>, i: nat): nat
    requires i < |fields|
  {
    if Uint(fields[i]).Some? then Uint(fields[i]).value else 0
  }

  function BandwidthTenthsMhz(code: nat): Option<nat> {
    if code < 6 then Some([14, 30, 50, 100, 150, 200][code]) else None
  }

  /** Raw measurements of a record. */
  datatype Raw = Raw(band: nat, pci: nat, rsrp: nat, rsrq: nat, sinr: int,
                     dlEarfcn: nat, ulEarfcn: nat, dlBandwidth: nat, ulBandwidth: nat)

  predicate HasSentinel(r: Raw, primary: bool) {
    || r.band == 255 || r.pci == 65535 || r.rsrp == 255 || r.rsrq == 255
    || (r.sinr == 127 && primary) || r.sinr == 255
    || r.dlEarfcn == 65535 || r.ulEarfcn == 65535 || r.dlBandwidth == 255
  }

  predicate InRange(r: Raw) {
    && 0 < r.band <= 85 && r.pci <= 503 && r.rsrp <= 97 && r.rsrq <= 34
    && (r.sinr == 127 || -100 <= r.sinr <= 100)
    && DownlinkValid(r.band, r.dlEarfcn) && BandwidthTenthsMhz(r.dlBandwidth).Some?
  }

  function Measured(r: Raw, ulBandwidth: Option<nat>): Radio {
    Radio(r.band, r.pci, r.rsrp - 141, r.rsrq * 5 - 195, if r.sinr == 127 then None else Some(r.sinr * 5),
          r.dlEarfcn, r.ulEarfcn,
          if BandwidthTenthsMhz(r.dlBandwidth).Some? then BandwidthTenthsMhz(r.dlBandwidth).value else 0, ulBandwidth)
  }

  /** Only a secondary may leave its uplink inactive and its SINR unavailable. */
  function CommonCarrier(r: Raw, primary: bool): Reading<Radio> {
    if HasSentinel(r, primary) then Rejected(Sentinel)
    else if !InRange(r) then Rejected(OutOfRange)
    else if r.ulBandwidth == 255 then if primary then Rejected(Sentinel) else Read(Measured(r, None))
    else if !UplinkValid(r.band, r.ulEarfcn) || BandwidthTenthsMhz(r.ulBandwidth).None? then Rejected(OutOfRange)
    else Read(Measured(r, BandwidthTenthsMhz(r.ulBandwidth)))
  }

  function RawOf(fields: seq<string>, signed: nat, pci: nat): Raw
    requires AllNumbers(fields, signed) && 1 < |fields| && pci + 2 < |fields| && signed + 4 < |fields|
  {
    Raw(Num(fields, 1), Num(fields, pci), Num(fields, pci + 1), Num(fields, pci + 2), Signed(fields[signed], false).value,
        Num(fields, signed + 1), Num(fields, signed + 2), Num(fields, signed + 3), Num(fields, signed + 4))
  }

  /** Index, band, MCC, MNC, TAC, cell ID, PCI, RSRP, RSRQ, SINR, EARFCNs and bandwidths. */
  function PrimaryRecord(fields: seq<string>): Reading<Slot>
    requires |fields| == PRIMARY_FIELDS
  {
    if !AllNumbers(fields, 9) then Rejected(Malformed)
    else if Num(fields, 0) != 1 then Rejected(OutOfRange)
    else if Num(fields, 2) == 65535 || Num(fields, 4) == 65535 then Rejected(Sentinel)
    else if Num(fields, 2) == 0 || Num(fields, 2) > 999 || Num(fields, 3) > 999 || Num(fields, 4) > 65535
            || Num(fields, 5) > CELL_ID_MAX then Rejected(OutOfRange)
    else
      var radio := CommonCarrier(RawOf(fields, 9, 6), true);
      if radio.Rejected? then Rejected(radio.why)
      else
        var identity := Identity(Num(fields, 2), Num(fields, 3), Num(fields, 4), Num(fields, 5));
        Read(Slot(true, Carrier(1, Some(identity), radio.value)))
  }

  /** An idle secondary slot: every measurement is its sentinel. */
  predicate IsIdle(r: Raw) {
    && r.band == 255 && r.pci == 65535 && r.rsrp == 255 && r.rsrq == 255 && r.sinr == 127
    && r.dlEarfcn == 65535 && r.dlBandwidth == 255 && r.ulBandwidth == 255
  }

  function IdleRadio(ulEarfcn: nat): Radio {
    Radio(0, 0, 0, 0, None, 0, ulEarfcn, 0, None)
  }

  /** As the primary without cell identity; the uplink must be the inactive one. */
  function SecondaryRecord(fields: seq<string>): Reading<Slot>
    requires |fields| == SECONDARY_FIELDS
  {
    if !AllNumbers(fields, 5) then Rejected(Malformed)
    else if Num(fields, 0) < 2 || Num(fields, 0) > MAX_SLOTS then Rejected(OutOfRange)
    else
      var index, raw := Num(fields, 0), RawOf(fields, 5, 2);
      if IsIdle(raw) then
        if raw.ulEarfcn > LTE_EARFCN_MAX then Rejected(Sentinel)
        else Read(Slot(false, Carrier(index, None, IdleRadio(raw.ulEarfcn))))
      else
        var radio := CommonCarrier(raw, false);
        if radio.Rejected? then Rejected(radio.why)
        else if radio.value.ulBandwidth.Some? then Rejected(OutOfRange)
        else Read(Slot(true, Carrier(index, None, radio.value)))
  }

  // ----- one line --------------------------------------------------------------------------------

  /** What the scan has seen so far; `declared` is zero before the header. */
  datatype Scan = Scan(declared: nat, records: nat, slots: seq<Option<Slot>>)

  function Begin(): Scan {
    Scan(0, 0, seq(MAX_SLOTS, _ => None))
  }

  predicate ScanOk(st: Scan) {
    |st.slots| == MAX_SLOTS && st.declared <= MAX_SLOTS
  }

  function HasPrefix(line: string): bool {
    |line| >= |PREFIX| && line[..|PREFIX|] == PREFIX
  }

  function Body(line: string): string
    requires HasPrefix(line)
  {
    Trim(line[|PREFIX|..])
  }

  function Header(st: Scan, field: string): (r: Reading<Scan>)
    requires ScanOk(st)
    ensures r.Read? ==> ScanOk(r.value)
  {
    if st.declared != 0 || st.records != 0 || Uint(field).None? then Rejected(Malformed)
    else if Uint(field).value == 0 then Rejected(OutOfRange)
    else if Uint(field).value > MAX_SLOTS then Rejected(TooMany)
    else Read(st.(declared := Uint(field).value))
  }

  function RecordOf(fields: seq<string>, count: nat): Reading<Slot>
    requires count == FieldCount(fields, PRIMARY_FIELDS + 1) && (count == PRIMARY_FIELDS || count == SECONDARY_FIELDS ==> count == |fields|)
  {
    if count == PRIMARY_FIELDS then PrimaryRecord(fields)
    else if count == SECONDARY_FIELDS then SecondaryRecord(fields)
    else Rejected(Malformed)
  }

  function Place(st: Scan, slot: Slot): (r: Reading<Scan>)
    requires ScanOk(st)
    ensures r.Read? ==> ScanOk(r.value)
  {
    var index := slot.carrier.index;
    if index > st.declared then Rejected(CountMismatch)
    else if index == 0 || index > MAX_SLOTS then Rejected(Malformed)
    else if st.slots[index - 1].Some? then Rejected(Duplicate)
    else Read(Scan(st.declared, st.records + 1, st.slots[index - 1 := Some(slot)]))
  }

  function Records(st: Scan, record: Reading<Slot>): (r: Reading<Scan>)
    requires ScanOk(st)
    ensures r.Read? ==> ScanOk(r.value)
  {
    if st.declared == 0 then Rejected(Malformed)
    else if st.records >= st.declared then Rejected(CountMismatch)
    else if record.Rejected? then Rejected(record.why)
    else Place(st, record.value)
  }

  lemma CountFits(fields: seq<string>, capacity: nat)
    requires fields != []
    ensures 1 <= FieldCount(fields, capacity) <= capacity ==> FieldCount(fields, capacity) == |fields|
  {
    FieldCountIs(fields, capacity);
  }

  /** A trimmed, non-blank line. */
  function TakeLine(st: Scan, line: string): (r: Reading<Scan>)
    requires ScanOk(st)
    ensures r.Read? ==> ScanOk(r.value)
  {
    if !HasPrefix(line) then Rejected(Malformed)
    else
      var fields := Fields(Body(line));
      var count := FieldCount(fields, PRIMARY_FIELDS + 1);
      assert count == PRIMARY_FIELDS || count == SECONDARY_FIELDS || count == 1 ==> count == |fields| by {
        FieldsStep(Body(line));
        CountFits(fields, PRIMARY_FIELDS + 1);
      }
      if count == 1 then Header(st, fields[0])
      else Records(st, RecordOf(fields, count))
  }

  function TakeRaw(st: Scan, raw: string): (r: Reading<Scan>)
    requires ScanOk(st)
    ensures r.Read? ==> ScanOk(r.value)
  {
    if Cleaned(raw) == "" then Read(st) else TakeLine(st, Cleaned(raw))
  }

  function TakeLines(st: Scan, lines: seq<string>): (r: Reading<Scan>)
    requires ScanOk(st)
    ensures r.Read? ==> ScanOk(r.value)
    decreases |lines|
  {
    if lines == [] then Read(st)
    else
      var next := TakeRaw(st, lines[0]);
      if next.Rejected? then next else TakeLines(next.value, lines[1..])
  }

  /** The rest of the lines after a first one that gave `next`. */
  function AfterFirst(next: Reading<Scan>, rest: seq<string>): Reading<Scan>
    requires next.Read? ==> ScanOk(next.value)
  {
    if next.Rejected? then next else TakeLines(next.value, rest)
  }

  lemma TakeFirst(st: Scan, x: string, rest: seq<string>)
    requires ScanOk(st)
    ensures TakeLines(st, [x] + rest) == AfterFirst(TakeRaw(st, x), rest)
  {
    assert ([x] + rest)[1..] == rest;
  }

  // ----- the whole response ------------------------------------------------------------------------

  function RadioAt(slots: seq<Option<Slot>>, i: nat): Radio
    requires i < |slots|
  {
    if slots[i].Some? then slots[i].value.carrier.radio else IdleRadio(0)
  }

  /** A slot without uplink must repeat the uplink channel of the primary. */
  predicate UplinksAgree(slots: seq<Option<Slot>>, declared: nat)
    requires 0 < declared <= |slots|
  {
    forall i | 1 <= i < declared ::
      RadioAt(slots, i).ulBandwidth.Some? || RadioAt(slots, i).ulEarfcn == RadioAt(slots, 0).ulEarfcn
  }

  predicate Same(a: Carrier, b: Carrier) {
    a.radio.band == b.radio.band && a.radio.pci == b.radio.pci && a.radio.dlEarfcn == b.radio.dlEarfcn
  }

  predicate Repeats(carriers: seq<Carrier>, c: Carrier) {
    exists k | 0 <= k < |carriers| :: Same(c, carriers[k])
  }

  /** The active carriers of the first `n` slots, in slot order. */
  function Gather(slots: seq<Option<Slot>>, n: nat): Reading<seq<Carrier>>
    requires n <= |slots|
  {
    if n == 0 then Read([])
    else
      var before := Gather(slots, n - 1);
      if before.Rejected? then before
      else if slots[n - 1].None? then Rejected(CountMismatch)
      else if !slots[n - 1].value.active then before
      else if Repeats(before.value, slots[n - 1].value.carrier) then Rejected(Duplicate)
      else Read(before.value + [slots[n - 1].value.carrier])
  }

  function Conclude(st: Scan): Reading<Info>
    requires ScanOk(st)
  {
    if st.declared == 0 then Rejected(Empty)
    else if st.slots[0].None? || !st.slots[0].value.active then Rejected(MissingPrimary)
    else if st.records != st.declared then Rejected(CountMismatch)
    else if !UplinksAgree(st.slots, st.declared) then Rejected(OutOfRange)
    else
      var carriers := Gather(st.slots, st.declared);
      if carriers.Rejected? then Rejected(carriers.why) else Read(Info(carriers.value, st.declared))
  }

  function ParseLines(lines: seq<string>): Reading<Info> {
    var st := TakeLines(Begin(), lines);
    if st.Rejected? then Rejected(st.why) else Conclude(st.value)
  }

  function ParseText(response: string): Reading<Info> {
    if response == "" then Rejected(Empty)
    else if |response| > MAX_RESPONSE then Rejected(Oversized)
    else if NUL in response then Rejected(Malformed)
    else ParseLines(Split(response, '\n'))
  }
}
