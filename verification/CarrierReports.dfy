/** What a GTCAINFO record means (l850_ca.c), stated by the position of each number in its
    line. */
module CarrierReports {
  import opened Common
  import opened CText
  import opened Numerals
  import opened EarfcnTable
  import opened CarrierGrammar
  import opened CarrierTheorems

  /** The numbers of a primary line behind its index, which is 1. */
  datatype Primary = Primary(
    band: nat, mcc: nat, mnc: nat, tac: nat, cellId: nat, pci: nat, rsrp: nat, rsrq: nat, sinr: int,
    dlEarfcn: nat, ulEarfcn: nat, dlWidth: nat, ulWidth: nat)

  datatype Secondary = Secondary(
    index: nat, band: nat, pci: nat, rsrp: nat, rsrq: nat, sinr: int, dlEarfcn: nat, ulEarfcn: nat, dlWidth: nat, ulWidth: nat)

  const PRIMARY_SINR: nat := 9
  const SECONDARY_SINR: nat := 5

  function PrimaryOrder(n: Primary): (values: seq<int>)
    ensures |values| == PRIMARY_FIELDS
  {
    [1, n.band, n.mcc, n.mnc, n.tac, n.cellId, n.pci, n.rsrp, n.rsrq, n.sinr, n.dlEarfcn, n.ulEarfcn, n.dlWidth, n.ulWidth]
  }

  function SecondaryOrder(n: Secondary): (values: seq<int>)
    ensures |values| == SECONDARY_FIELDS
  {
    [n.index, n.band, n.pci, n.rsrp, n.rsrq, n.sinr, n.dlEarfcn, n.ulEarfcn, n.dlWidth, n.ulWidth]
  }

  /** The field is a decimal numeral of that value; only the SINR may be negative. */
  predicate FieldReads(field: string, signed: bool, value: int) {
    if signed then Signed(field, false) == Some(value)
    else Numeral(field, 10, UINT32_MAX).Some? && Numeral(field, 10, UINT32_MAX).value == value
  }

  ghost predicate ListReads(fields: seq<string>, signed: nat, values: seq<int>) {
    |fields| == |values| && forall k | 0 <= k < |values| :: FieldReads(fields[k], k == signed, values[k])
  }

  /** Bandwidth codes 0 to 5 stand for 1.4, 3, 5, 10, 15 and 20 MHz. */
  predicate WidthIs(code: nat, tenthsMhz: nat) {
    || (code == 0 && tenthsMhz == 14) || (code == 1 && tenthsMhz == 30) || (code == 2 && tenthsMhz == 50)
    || (code == 3 && tenthsMhz == 100) || (code == 4 && tenthsMhz == 150) || (code == 5 && tenthsMhz == 200)
  }

  /** What primary and secondary lines have in common. */
  predicate RadioReportable(band: nat, pci: nat, rsrp: nat, rsrq: nat, dlEarfcn: nat, dlWidth: nat) {
    && 1 <= band <= 85 && pci <= 503 && rsrp <= 97 && rsrq <= 34
    && DownlinkValid(band, dlEarfcn) && dlEarfcn != 65535 && dlWidth <= 5
  }

  predicate RadioReports(band: nat, pci: nat, rsrp: nat, rsrq: nat, dlEarfcn: nat, ulEarfcn: nat, dlWidth: nat, r: Radio) {
    && r.band == band && r.pci == pci && r.rsrpDbm + 141 == rsrp && r.rsrqTenthsDb + 195 == 5 * rsrq
    && r.dlEarfcn == dlEarfcn && r.ulEarfcn == ulEarfcn && WidthIs(dlWidth, r.dlBandwidth)
  }

  predicate PrimaryReportable(n: Primary) {
    && RadioReportable(n.band, n.pci, n.rsrp, n.rsrq, n.dlEarfcn, n.dlWidth)
    && 1 <= n.mcc <= 999 && n.mnc <= 999 && n.tac < 65535 && n.cellId <= 0x0FFF_FFFF
    && -100 <= n.sinr <= 100 && UplinkValid(n.band, n.ulEarfcn) && n.ulEarfcn != 65535 && n.ulWidth <= 5
  }

  /** The carrier that a primary line reports. */
  predicate PrimaryReports(n: Primary, c: Carrier) {
    && c.index == 1 && c.identity.Some?
    && c.identity.value.mcc == n.mcc && c.identity.value.mnc == n.mnc
    && c.identity.value.tac == n.tac && c.identity.value.cellId == n.cellId
    && RadioReports(n.band, n.pci, n.rsrp, n.rsrq, n.dlEarfcn, n.ulEarfcn, n.dlWidth, c.radio)
    && c.radio.sinrTenthsDb == Some(5 * n.sinr)
    && c.radio.ulBandwidth.Some? && WidthIs(n.ulWidth, c.radio.ulBandwidth.value)
  }

  predicate SecondaryReportable(n: Secondary) {
    && 2 <= n.index <= 8 && RadioReportable(n.band, n.pci, n.rsrp, n.rsrq, n.dlEarfcn, n.dlWidth)
    && (-100 <= n.sinr <= 100 || n.sinr == 127) && n.ulEarfcn != 65535 && n.ulWidth == 255
  }

  /** The carrier that a secondary line reports: downlink only, without identity. */
  predicate SecondaryReports(n: Secondary, c: Carrier) {
    && c.index == n.index && c.identity.None?
    && RadioReports(n.band, n.pci, n.rsrp, n.rsrq, n.dlEarfcn, n.ulEarfcn, n.dlWidth, c.radio)
    && c.radio.sinrTenthsDb == (if n.sinr == 127 then None else Some(5 * n.sinr)) && c.radio.ulBandwidth.None?
  }

  /** A secondary slot without carrier: everything but the uplink channel is "not available". */
  predicate IdleLine(n: Secondary) {
    && 2 <= n.index <= 8 && n.band == 255 && n.pci == 65535 && n.rsrp == 255 && n.rsrq == 255 && n.sinr == 127
    && n.dlEarfcn == 65535 && n.dlWidth == 255 && n.ulWidth == 255 && n.ulEarfcn <= 262143
  }

  // ----- one record -----------------------------------------------------------------------------------

  function PrimaryOf(fields: seq<string>): Primary
    requires |fields| == PRIMARY_FIELDS && AllNumbers(fields, PRIMARY_SINR)
  {
    Primary(Num(fields, 1), Num(fields, 2), Num(fields, 3), Num(fields, 4), Num(fields, 5), Num(fields, 6), Num(fields, 7),
            Num(fields, 8), Signed(fields[9], false).value, Num(fields, 10), Num(fields, 11), Num(fields, 12), Num(fields, 13))
  }

  function SecondaryOf(fields: seq<string>): Secondary
    requires |fields| == SECONDARY_FIELDS && AllNumbers(fields, SECONDARY_SINR)
  {
    Secondary(Num(fields, 0), Num(fields, 1), Num(fields, 2), Num(fields, 3), Num(fields, 4), Signed(fields[5], false).value,
              Num(fields, 6), Num(fields, 7), Num(fields, 8), Num(fields, 9))
  }

  lemma PrimaryIsRead(fields: seq<string>, n: Primary)
    requires |fields| == PRIMARY_FIELDS
    ensures ListReads(fields, PRIMARY_SINR, PrimaryOrder(n)) <==>
            AllNumbers(fields, PRIMARY_SINR) && Num(fields, 0) == 1 && n == PrimaryOf(fields)
  {
    var v := PrimaryOrder(n);
    assert v[0] == 1 && v[1] == n.band && v[2] == n.mcc && v[3] == n.mnc && v[4] == n.tac && v[5] == n.cellId && v[6] == n.pci
           && v[7] == n.rsrp && v[8] == n.rsrq && v[9] == n.sinr && v[10] == n.dlEarfcn && v[11] == n.ulEarfcn
           && v[12] == n.dlWidth && v[13] == n.ulWidth;
    if ListReads(fields, PRIMARY_SINR, v) {
      assert FieldReads(fields[0], false, v[0]) && FieldReads(fields[9], true, v[9]);
      assert forall k | 0 <= k < PRIMARY_FIELDS && k != PRIMARY_SINR :: FieldReads(fields[k], false, v[k]);
    }
  }

  lemma SecondaryIsRead(fields: seq<string>, n: Secondary)
    requires |fields| == SECONDARY_FIELDS
    ensures ListReads(fields, SECONDARY_SINR, SecondaryOrder(n)) <==>
            AllNumbers(fields, SECONDARY_SINR) && n == SecondaryOf(fields)
  {
    var v := SecondaryOrder(n);
    assert v[0] == n.index && v[1] == n.band && v[2] == n.pci && v[3] == n.rsrp && v[4] == n.rsrq && v[5] == n.sinr
           && v[6] == n.dlEarfcn && v[7] == n.ulEarfcn && v[8] == n.dlWidth && v[9] == n.ulWidth;
    if ListReads(fields, SECONDARY_SINR, v) {
      assert FieldReads(fields[5], true, v[5]);
      assert forall k | 0 <= k < SECONDARY_FIELDS && k != SECONDARY_SINR :: FieldReads(fields[k], false, v[k]);
    }
  }

  lemma WidthIff(code: nat, tenthsMhz: nat)
    ensures BandwidthTenthsMhz(code) == Some(tenthsMhz) <==> WidthIs(code, tenthsMhz)
    ensures BandwidthTenthsMhz(code).Some? <==> code <= 5
  {
  }

  lemma CommonRead(r: Raw, primary: bool, radio: Radio)
    ensures CommonCarrier(r, primary) == Read(radio) <==>
            && RadioReportable(r.band, r.pci, r.rsrp, r.rsrq, r.dlEarfcn, r.dlBandwidth) && r.ulEarfcn != 65535
            && (-100 <= r.sinr <= 100 || (r.sinr == 127 && !primary))
            && RadioReports(r.band, r.pci, r.rsrp, r.rsrq, r.dlEarfcn, r.ulEarfcn, r.dlBandwidth, radio)
            && radio.sinrTenthsDb == (if r.sinr == 127 then None else Some(5 * r.sinr))
            && (if r.ulBandwidth == 255 then !primary && radio.ulBandwidth.None?
                else UplinkValid(r.band, r.ulEarfcn) && r.ulBandwidth <= 5
                     && radio.ulBandwidth.Some? && WidthIs(r.ulBandwidth, radio.ulBandwidth.value))
  {
    WidthIff(r.dlBandwidth, radio.dlBandwidth);
    if radio.ulBandwidth.Some? { WidthIff(r.ulBandwidth, radio.ulBandwidth.value); }
  }

  /** A list of fourteen fields is read as an active slot exactly when it renders a reportable
      primary line of that carrier. */
  lemma PrimaryReadIff(fields: seq<string>, slot: Slot)
    requires |fields| == PRIMARY_FIELDS
    ensures PrimaryRecord(fields) == Read(slot) <==>
            slot.active
            && exists n :: ListReads(fields, PRIMARY_SINR, PrimaryOrder(n)) && PrimaryReportable(n) && PrimaryReports(n, slot.carrier)
  {
    if AllNumbers(fields, PRIMARY_SINR) {
      var n := PrimaryOf(fields);
      PrimaryIsRead(fields, n);
      CommonRead(RawOf(fields, 9, 6), true, slot.carrier.radio);
    }
    if n :| ListReads(fields, PRIMARY_SINR, PrimaryOrder(n)) && PrimaryReportable(n) && PrimaryReports(n, slot.carrier) {
      PrimaryIsRead(fields, n);
    }
  }

  ghost predicate SecondaryRenders(fields: seq<string>, n: Secondary, slot: Slot) {
    && ListReads(fields, SECONDARY_SINR, SecondaryOrder(n))
    && (if slot.active then SecondaryReportable(n) && SecondaryReports(n, slot.carrier)
        else IdleLine(n) && slot.carrier == Carrier(n.index, None, IdleRadio(n.ulEarfcn)))
  }

  /** A list of ten fields is read as an active slot exactly when it renders a reportable
      secondary line of that carrier, and as an idle one exactly when it renders an idle line. */
  lemma SecondaryReadIff(fields: seq<string>, slot: Slot)
    requires |fields| == SECONDARY_FIELDS
    ensures SecondaryRecord(fields) == Read(slot) <==> exists n :: SecondaryRenders(fields, n, slot)
  {
    if AllNumbers(fields, SECONDARY_SINR) {
      var n := SecondaryOf(fields);
      SecondaryIsRead(fields, n);
      CommonRead(RawOf(fields, 5, 2), false, slot.carrier.radio);
      if SecondaryRecord(fields) == Read(slot) { assert SecondaryRenders(fields, n, slot); }
    }
    if n :| SecondaryRenders(fields, n, slot) { SecondaryIsRead(fields, n); }
  }

  // ----- one line --------------------------------------------------------------------------------------

  /** Behind the prefix the line has exactly these fields, none of them empty. */
  ghost predicate LineList(line: string, size: nat) {
    HasPrefix(line) && |Fields(Body(line))| == size && forall k | 0 <= k < size :: Fields(Body(line))[k] != ""
  }

  /** The line reports this slot. */
  ghost predicate LineReports(line: string, slot: Slot) {
    || (LineList(line, PRIMARY_FIELDS) && slot.active
        && exists n ::
             ListReads(Fields(Body(line)), PRIMARY_SINR, PrimaryOrder(n)) && PrimaryReportable(n) && PrimaryReports(n, slot.carrier))
    || (LineList(line, SECONDARY_FIELDS) && exists n :: SecondaryRenders(Fields(Body(line)), n, slot))
  }

  ghost predicate IsRecord(line: string, slot: Slot) {
    HasPrefix(line) && Classify(line) == RecordLine(Read(slot))
  }

  lemma LineSizes(line: string)
    requires HasPrefix(line)
    ensures var fields := Fields(Body(line));
            var count := FieldCount(fields, PRIMARY_FIELDS + 1);
            && (count == PRIMARY_FIELDS <==> LineList(line, PRIMARY_FIELDS))
            && (count == SECONDARY_FIELDS <==> LineList(line, SECONDARY_FIELDS))
            && (count == 1 <==> LineList(line, 1))
            && (count == PRIMARY_FIELDS || count == SECONDARY_FIELDS || count == 1 ==> count == |fields|)
  {
    FieldsStep(Body(line));
    FieldCountIs(Fields(Body(line)), PRIMARY_FIELDS + 1);
  }

  lemma LineReadIff(line: string, slot: Slot)
    ensures IsRecord(line, slot) <==> LineReports(line, slot)
  {
    if HasPrefix(line) {
      LineSizes(line);
      var fields := Fields(Body(line));
      if |fields| == PRIMARY_FIELDS { PrimaryReadIff(fields, slot); }
      if |fields| == SECONDARY_FIELDS { SecondaryReadIff(fields, slot); }
    }
  }
}
