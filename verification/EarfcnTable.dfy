/** The two LTE channel tables of the bridge: the downlink EARFCN table used by the
    cell-lock code and the paired band table used by the carrier-aggregation code.
    Channel numbers follow section 5.7.3 of 3GPP TS 36.101. */
module EarfcnTable {
  import opened Common

  datatype Range = Range(first: nat, last: nat, band: nat)
  datatype PairedBand = PairedBand(band: nat, dlFirst: nat, dlLast: nat, ulFirst: nat, ulLast: nat)

  const RANGE_COUNT: nat := 59
  const PAIRED_COUNT: nat := 23

  function RangeAt(i: nat): Range
    requires i < RANGE_COUNT
  {
    match i
    case 0 => Range(0, 599, 1)
    case 1 => Range(600, 1199, 2)
    case 2 => Range(1200, 1949, 3)
    case 3 => Range(1950, 2399, 4)
    case 4 => Range(2400, 2649, 5)
    case 5 => Range(2650, 2749, 6)
    case 6 => Range(2750, 3449, 7)
    case 7 => Range(3450, 3799, 8)
    case 8 => Range(3800, 4149, 9)
    case 9 => Range(4150, 4749, 10)
    case 10 => Range(4750, 4949, 11)
    case 11 => Range(5010, 5179, 12)
    case 12 => Range(5180, 5279, 13)
    case 13 => Range(5280, 5379, 14)
    case 14 => Range(5730, 5849, 17)
    case 15 => Range(5850, 5999, 18)
    case 16 => Range(6000, 6149, 19)
    case 17 => Range(6150, 6449, 20)
    case 18 => Range(6450, 6599, 21)
    case 19 => Range(6600, 7399, 22)
    case 20 => Range(7500, 7699, 23)
    case 21 => Range(7700, 8039, 24)
    case 22 => Range(8040, 8689, 25)
    case 23 => Range(8690, 9039, 26)
    case 24 => Range(9040, 9209, 27)
    case 25 => Range(9210, 9659, 28)
    case 26 => Range(9660, 9769, 29)
    case 27 => Range(9770, 9869, 30)
    case 28 => Range(9870, 9919, 31)
    case 29 => Range(9920, 10359, 32)
    case 30 => Range(36000, 36199, 33)
    case 31 => Range(36200, 36349, 34)
    case 32 => Range(36350, 36949, 35)
    case 33 => Range(36950, 37549, 36)
    case 34 => Range(37550, 37749, 37)
    case 35 => Range(37750, 38249, 38)
    case 36 => Range(38250, 38649, 39)
    case 37 => Range(38650, 39649, 40)
    case 38 => Range(39650, 41589, 41)
    case 39 => Range(41590, 43589, 42)
    case 40 => Range(43590, 45589, 43)
    case 41 => Range(45590, 46589, 44)
    case 42 => Range(46590, 46789, 45)
    case 43 => Range(46790, 54539, 46)
    case 44 => Range(54540, 55239, 47)
    case 45 => Range(55240, 56739, 48)
    case 46 => Range(65536, 66435, 65)
    case 47 => Range(66436, 67335, 66)
    case 48 => Range(67336, 67535, 67)
    case 49 => Range(67536, 67835, 68)
    case 50 => Range(67836, 68335, 69)
    case 51 => Range(68336, 68585, 70)
    case 52 => Range(68586, 68935, 71)
    case 53 => Range(68936, 68985, 72)
    case 54 => Range(68986, 69035, 73)
    case 55 => Range(69036, 69465, 74)
    case 56 => Range(69466, 70315, 75)
    case 57 => Range(70316, 70365, 76)
    case _ => Range(70366, 70545, 85)
  }

  function PairedAt(i: nat): PairedBand
    requires i < PAIRED_COUNT
  {
    match i
    case 0 => PairedBand(1, 0, 599, 18000, 18599)
    case 1 => PairedBand(2, 600, 1199, 18600, 19199)
    case 2 => PairedBand(3, 1200, 1949, 19200, 19949)
    case 3 => PairedBand(4, 1950, 2399, 19950, 20399)
    case 4 => PairedBand(5, 2400, 2649, 20400, 20649)
    case 5 => PairedBand(7, 2750, 3449, 20750, 21449)
    case 6 => PairedBand(8, 3450, 3799, 21450, 21799)
    case 7 => PairedBand(11, 4750, 4949, 22750, 22949)
    case 8 => PairedBand(12, 5010, 5179, 23010, 23179)
    case 9 => PairedBand(13, 5180, 5279, 23180, 23279)
    case 10 => PairedBand(17, 5730, 5849, 23730, 23849)
    case 11 => PairedBand(18, 5850, 5999, 23850, 23999)
    case 12 => PairedBand(19, 6000, 6149, 24000, 24149)
    case 13 => PairedBand(20, 6150, 6449, 24150, 24449)
    case 14 => PairedBand(21, 6450, 6599, 24450, 24599)
    case 15 => PairedBand(26, 8690, 9039, 26690, 27039)
    case 16 => PairedBand(28, 9210, 9659, 27210, 27659)
    case 17 => PairedBand(30, 9770, 9869, 27660, 27759)
    case 18 => PairedBand(38, 37750, 38249, 37750, 38249)
    case 19 => PairedBand(39, 38250, 38649, 38250, 38649)
    case 20 => PairedBand(40, 38650, 39649, 38650, 39649)
    case 21 => PairedBand(41, 39650, 41589, 39650, 41589)
    case _ => PairedBand(66, 66436, 67335, 131972, 132671)
  }

  function Ranges(): seq<Range> {
    seq(RANGE_COUNT, i requires 0 <= i < RANGE_COUNT => RangeAt(i))
  }

  function PairedBands(): seq<PairedBand> {
    seq(PAIRED_COUNT, i requires 0 <= i < PAIRED_COUNT => PairedAt(i))
  }

  /** Where the downlink half of each paired band sits in the EARFCN table. */
  function PairedPosition(i: nat): nat
    requires i < PAIRED_COUNT
  {
    match i
    case 0 => 0
    case 1 => 1
    case 2 => 2
    case 3 => 3
    case 4 => 4
    case 5 => 6
    case 6 => 7
    case 7 => 10
    case 8 => 11
    case 9 => 12
    case 10 => 14
    case 11 => 15
    case 12 => 16
    case 13 => 17
    case 14 => 18
    case 15 => 23
    case 16 => 25
    case 17 => 27
    case 18 => 35
    case 19 => 36
    case 20 => 37
    case 21 => 38
    case _ => 47
  }

  predicate Holds(range: Range, earfcn: nat) {
    range.first <= earfcn <= range.last
  }

  /** Band of the first entry of a channel table that holds the channel. */
  function Lookup(table: seq<Range>, earfcn: nat): Option<nat> {
    if table == [] then None
    else if Holds(table[0], earfcn) then Some(table[0].band)
    else Lookup(table[1..], earfcn)
  }

  function EarfcnToBand(earfcn: nat): Option<nat> {
    Lookup(Ranges(), earfcn)
  }

  /** The table scan: a linear search that stops at the first range holding the channel. */
  method ScanTable(table: array<Range>, earfcn: nat) returns (band: Option<nat>)
    ensures band == Lookup(table[..], earfcn)
  {
    for i := 0 to table.Length
      invariant Lookup(table[i..], earfcn) == Lookup(table[..], earfcn)
    {
      assert table[i..][1..] == table[i + 1..];
      if Holds(table[i], earfcn) {
        return Some(table[i].band);
      }
    }
    return None;
  }

  /** Ranges are nonempty, disjoint and listed in increasing order, as are their bands. */
  predicate Ascending(table: seq<Range>) {
    && (forall i | 0 <= i < |table| :: table[i].first <= table[i].last)
    && (forall i, j | 0 <= i < j < |table| :: table[i].last < table[j].first && table[i].band < table[j].band)
  }

  lemma RangesIncrease(i: nat)
    requires i + 1 < RANGE_COUNT
    ensures RangeAt(i).first <= RangeAt(i).last < RangeAt(i + 1).first
    ensures RangeAt(i).band < RangeAt(i + 1).band
    ensures RangeAt(i + 1).first <= RangeAt(i + 1).last
  {
  }

  predicate StepsUp(a: Range, b: Range) {
    a.first <= a.last < b.first <= b.last && a.band < b.band
  }

  lemma {:induction false} NeighboursSuffice(table: seq<Range>, i: nat, j: nat)
    requires forall k | 0 <= k < |table| - 1 :: StepsUp(table[k], table[k + 1])
    requires i < j < |table|
    ensures StepsUp(table[i], table[j])
    decreases j - i
  {
    if i + 1 < j {
      NeighboursSuffice(table, i, j - 1);
      assert StepsUp(table[j - 1], table[j - 1 + 1]);
    }
  }

  /** The downlink table of the source is ordered, so its ranges are disjoint. */
  lemma RangesAscend()
    ensures |Ranges()| == RANGE_COUNT && Ascending(Ranges())
  {
    var table := Ranges();
    forall k | 0 <= k < |table| - 1 ensures StepsUp(table[k], table[k + 1]) {
      RangesIncrease(k);
    }
    forall i, j | 0 <= i < j < |table| ensures StepsUp(table[i], table[j]) {
      NeighboursSuffice(table, i, j);
    }
    forall i | 0 <= i < |table| ensures table[i].first <= table[i].last {
      if i + 1 < |table| {
        assert StepsUp(table[i], table[i + 1]);
      } else {
        assert StepsUp(table[i - 1], table[i]);
      }
    }
  }

  lemma {:induction false} LookupSource(table: seq<Range>, earfcn: nat) returns (j: nat)
    requires Lookup(table, earfcn).Some?
    ensures j < |table| && Holds(table[j], earfcn) && Lookup(table, earfcn) == Some(table[j].band)
  {
    if Holds(table[0], earfcn) {
      j := 0;
    } else {
      var k := LookupSource(table[1..], earfcn);
      j := k + 1;
    }
  }

  lemma {:induction false} LookupFinds(table: seq<Range>, j: nat, earfcn: nat)
    requires Ascending(table) && j < |table| && Holds(table[j], earfcn)
    ensures Lookup(table, earfcn) == Some(table[j].band)
  {
    if j > 0 {
      assert table[0].last < table[j].first;
      LookupFinds(table[1..], j - 1, earfcn);
    }
  }

  /** Whichever range holds the channel decides the band, and only that range has it. */
  lemma LookupIsExact(table: seq<Range>, j: nat, earfcn: nat)
    requires Ascending(table) && j < |table|
    ensures Holds(table[j], earfcn) <==> Lookup(table, earfcn) == Some(table[j].band)
  {
    if Holds(table[j], earfcn) {
      LookupFinds(table, j, earfcn);
    } else if Lookup(table, earfcn).Some? {
      var k := LookupSource(table, earfcn);
      assert k < j || j < k;
    }
  }

  /** Every channel with a band is at most 70545, so it prints in five digits, bands run
      from 1 to 85, and the value that marks a cleared lock (65535) has no band. */
  lemma LookupBounds(earfcn: nat)
    ensures EarfcnToBand(earfcn).Some? ==> earfcn <= 70545 && 1 <= EarfcnToBand(earfcn).value <= 85
    ensures EarfcnToBand(65535) == None
  {
    RangesAscend();
    var table := Ranges();
    assert table[0].band == 1 && table[58].last == 70545 && table[58].band == 85;
    assert table[45].last == 56739 && table[46].first == 65536;
    if EarfcnToBand(earfcn).Some? {
      BoundedByEnds(table, earfcn);
    }
    if EarfcnToBand(65535).Some? {
      InGap(table, 45, 65535);
    }
  }

  lemma BoundedByEnds(table: seq<Range>, earfcn: nat)
    requires Ascending(table) && Lookup(table, earfcn).Some?
    ensures |table| > 0
    ensures earfcn <= table[|table| - 1].last
    ensures table[0].band <= Lookup(table, earfcn).value <= table[|table| - 1].band
  {
    var j := LookupSource(table, earfcn);
    if j < |table| - 1 {
      assert table[j].last < table[|table| - 1].first;
    }
  }

  lemma InGap(table: seq<Range>, k: nat, earfcn: nat)
    requires Ascending(table) && k + 1 < |table| && table[k].last < earfcn < table[k + 1].first
    ensures Lookup(table, earfcn) == None
  {
    if Lookup(table, earfcn).Some? {
      var j := LookupSource(table, earfcn);
    }
  }

  function FindPaired(table: seq<PairedBand>, band: nat): Option<PairedBand> {
    if table == [] then None
    else if table[0].band == band then Some(table[0])
    else FindPaired(table[1..], band)
  }

  predicate DownlinkValid(band: nat, earfcn: nat) {
    var range := FindPaired(PairedBands(), band);
    range.Some? && range.value.dlFirst <= earfcn <= range.value.dlLast
  }

  predicate UplinkValid(band: nat, earfcn: nat) {
    var range := FindPaired(PairedBands(), band);
    range.Some? && range.value.ulFirst <= earfcn <= range.value.ulLast
  }

  lemma PairedMatchesTable(i: nat)
    requires i < PAIRED_COUNT
    ensures PairedPosition(i) < RANGE_COUNT
    ensures RangeAt(PairedPosition(i)) == Range(PairedAt(i).dlFirst, PairedAt(i).dlLast, PairedAt(i).band)
  {
  }

  lemma {:induction false} PairedSource(table: seq<PairedBand>, band: nat) returns (j: nat)
    requires FindPaired(table, band).Some?
    ensures j < |table| && table[j].band == band && FindPaired(table, band) == Some(table[j])
  {
    if table[0].band == band {
      j := 0;
    } else {
      var k := PairedSource(table[1..], band);
      j := k + 1;
    }
  }

  lemma PairedBandsDiffer(i: nat, j: nat)
    requires i < j < PAIRED_COUNT
    ensures PairedAt(i).band != PairedAt(j).band
  {
    PairedMatchesTable(i);
    PairedMatchesTable(j);
    RangesAscend();
  }

  lemma {:induction false} PairedFinds(table: seq<PairedBand>, j: nat)
    requires j < |table| && forall i | 0 <= i < j :: table[i].band != table[j].band
    ensures FindPaired(table, table[j].band) == Some(table[j])
  {
    if j > 0 { PairedFinds(table[1..], j - 1); }
  }

  /** The channels of a band are those of its one row; a band without a row has none. */
  lemma PairedIsExact(band: nat, earfcn: nat)
    ensures DownlinkValid(band, earfcn) <==>
            exists i :: 0 <= i < PAIRED_COUNT && PairedAt(i).band == band && PairedAt(i).dlFirst <= earfcn <= PairedAt(i).dlLast
    ensures UplinkValid(band, earfcn) <==>
            exists i :: 0 <= i < PAIRED_COUNT && PairedAt(i).band == band && PairedAt(i).ulFirst <= earfcn <= PairedAt(i).ulLast
  {
    var table := PairedBands();
    if FindPaired(table, band).Some? { var j := PairedSource(table, band); }
    forall i | 0 <= i < PAIRED_COUNT && PairedAt(i).band == band ensures FindPaired(table, band) == Some(PairedAt(i)) {
      forall k | 0 <= k < i ensures table[k].band != table[i].band { PairedBandsDiffer(k, i); }
      PairedFinds(table, i);
    }
  }

  /** The two tables agree: a downlink channel accepted for a band by the paired table is
      assigned exactly that band by the independent EARFCN table. */
  lemma TablesAgree(band: nat, earfcn: nat)
    requires DownlinkValid(band, earfcn)
    ensures EarfcnToBand(earfcn) == Some(band)
  {
    var j := PairedSource(PairedBands(), band);
    PairedMatchesTable(j);
    RangesAscend();
    assert Ranges()[PairedPosition(j)] == RangeAt(PairedPosition(j));
    LookupFinds(Ranges(), PairedPosition(j), earfcn);
  }
}
