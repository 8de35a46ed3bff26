/** The order in which the bridge keeps and lists messages: newest timestamp first, ties by
    name (object path in the cache, message ID in a listing), byte by byte as strcmp does,
    with an absent string before every present one. */
module Stamps {
  import opened Common

  datatype Stamp = Stamp(time: Option<string>, name: Option<string>)

  // ----- string comparison ----------------------------------------------------------------

  function CompareText(a: string, b: string): int {
    if a == [] && b == [] then 0
    else if a == [] then -1
    else if b == [] then 1
    else if a[0] < b[0] then -1
    else if b[0] < a[0] then 1
    else CompareText(a[1..], b[1..])
  }

  function Compare(a: Option<string>, b: Option<string>): int {
    match (a, b)
    case (None, None) => 0
    case (None, Some(_)) => -1
    case (Some(_), None) => 1
    case (Some(x), Some(y)) => CompareText(x, y)
  }

  lemma {:induction false} TextFlips(a: string, b: string)
    ensures CompareText(a, b) == -CompareText(b, a)
  {
    if a != [] && b != [] { TextFlips(a[1..], b[1..]); }
  }

  lemma {:induction false} TextZero(a: string, b: string)
    ensures CompareText(a, b) == 0 <==> a == b
  {
    if a != [] && b != [] {
      TextZero(a[1..], b[1..]);
      assert a == [a[0]] + a[1..] && b == [b[0]] + b[1..];
    }
  }

  lemma {:induction false} TextChains(a: string, b: string, c: string)
    requires CompareText(a, b) < 0 && CompareText(b, c) < 0
    ensures CompareText(a, c) < 0
  {
    if a != [] && b != [] && c != [] && a[0] == b[0] == c[0] { TextChains(a[1..], b[1..], c[1..]); }
  }

  // ----- the order on messages --------------------------------------------------------------

  /** `a` is listed before `b`: later timestamp, or the same one and a smaller name. */
  predicate Before(a: Stamp, b: Stamp) {
    var byTime := Compare(b.time, a.time);
    if byTime != 0 then byTime < 0 else Compare(a.name, b.name) < 0
  }

  lemma CompareFacts(a: Option<string>, b: Option<string>)
    ensures Compare(a, b) == -Compare(b, a)
    ensures Compare(a, b) == 0 <==> a == b
  {
    if a.Some? && b.Some? {
      TextFlips(a.value, b.value);
      TextZero(a.value, b.value);
    }
  }

  lemma CompareChains(a: Option<string>, b: Option<string>, c: Option<string>)
    requires Compare(a, b) < 0 && Compare(b, c) < 0
    ensures Compare(a, c) < 0
  {
    if a.Some? && b.Some? && c.Some? { TextChains(a.value, b.value, c.value); }
  }

  /** A strict total order. */
  lemma BeforeIsTotal(a: Stamp, b: Stamp)
    ensures !(Before(a, b) && Before(b, a))
    ensures a != b <==> Before(a, b) || Before(b, a)
  {
    CompareFacts(a.time, b.time);
    CompareFacts(a.name, b.name);
  }

  lemma BeforeChains(a: Stamp, b: Stamp, c: Stamp)
    requires Before(a, b) && Before(b, c)
    ensures Before(a, c)
  {
    CompareFacts(a.time, b.time);
    CompareFacts(b.time, c.time);
    CompareFacts(a.time, c.time);
    if Compare(c.time, b.time) < 0 && Compare(b.time, a.time) < 0 {
      CompareChains(c.time, b.time, a.time);
    }
    if Compare(a.name, b.name) < 0 && Compare(b.name, c.name) < 0 {
      CompareChains(a.name, b.name, c.name);
    }
  }

  // ----- which way the order runs ------------------------------------------------------------

  /** `a` is smaller than `b`: at the first difference its character is, or it ends there. */
  ghost predicate Smaller(a: string, b: string) {
    (exists k :: FirstDifference(a, b, k) && a[k] < b[k]) || (|a| < |b| && a == b[..|a|])
  }

  ghost predicate FirstDifference(a: string, b: string, k: int) {
    0 <= k < |a| && k < |b| && a[..k] == b[..k]
  }

  /** An absent text is smaller than every present one. */
  ghost predicate Lower(a: Option<string>, b: Option<string>) {
    b.Some? && (a.Some? ==> Smaller(a.value, b.value))
  }

  lemma {:induction false} SmallerIff(a: string, b: string)
    ensures CompareText(a, b) < 0 <==> Smaller(a, b)
  {
    if a != [] && b != [] {
      if a[0] == b[0] {
        SmallerIff(a[1..], b[1..]);
        SmallerTails(a, b);
      } else if a[0] < b[0] {
        assert FirstDifference(a, b, 0);
      } else {
        if Smaller(a, b) { SmallerHead(a, b); }
      }
    }
  }

  lemma SmallerHead(a: string, b: string)
    requires a != [] && b != [] && Smaller(a, b)
    ensures a[0] <= b[0]
  {
    if |a| < |b| && a == b[..|a|] {
      assert a[0] == b[..|a|][0];
    } else {
      var k :| FirstDifference(a, b, k) && a[k] < b[k];
      if k > 0 { assert a[..k][0] == b[..k][0]; }
    }
  }

  lemma ShiftLeft(a: string, b: string, k: int)
    requires a != [] && b != [] && FirstDifference(a, b, k) && k > 0
    ensures FirstDifference(a[1..], b[1..], k - 1)
  {
    assert a[1..][..k - 1] == a[..k][1..] && b[1..][..k - 1] == b[..k][1..];
  }

  lemma ShiftRight(a: string, b: string, k: int)
    requires a != [] && b != [] && a[0] == b[0] && FirstDifference(a[1..], b[1..], k)
    ensures FirstDifference(a, b, k + 1)
  {
    assert a[..k + 1] == [a[0]] + a[1..][..k] && b[..k + 1] == [b[0]] + b[1..][..k];
  }

  lemma PrefixShifts(a: string, b: string)
    requires a != [] && b != [] && a[0] == b[0] && |a| < |b|
    ensures a == b[..|a|] <==> a[1..] == b[1..][..|a| - 1]
  {
    assert a == [a[0]] + a[1..] && b[..|a|] == [b[0]] + b[1..][..|a| - 1];
    if a == b[..|a|] { assert a[1..] == b[..|a|][1..] == b[1..][..|a| - 1]; }
  }

  lemma SmallerTails(a: string, b: string)
    requires a != [] && b != [] && a[0] == b[0]
    ensures Smaller(a, b) <==> Smaller(a[1..], b[1..])
  {
    if |a| < |b| { PrefixShifts(a, b); }
    if k :| FirstDifference(a, b, k) && a[k] < b[k] { ShiftLeft(a, b, k); }
    if k :| FirstDifference(a[1..], b[1..], k) && a[1..][k] < b[1..][k] { ShiftRight(a, b, k); }
  }

  lemma LowerIff(a: Option<string>, b: Option<string>)
    ensures Compare(a, b) < 0 <==> Lower(a, b)
  {
    if a.Some? && b.Some? { SmallerIff(a.value, b.value); }
  }

  /** The later timestamp comes first, and of equal timestamps the smaller name. */
  lemma BeforeIff(a: Stamp, b: Stamp)
    ensures Before(a, b) <==> Lower(b.time, a.time) || (a.time == b.time && Lower(a.name, b.name))
  {
    LowerIff(b.time, a.time);
    LowerIff(a.name, b.name);
    CompareFacts(b.time, a.time);
    if a.time == b.time { CompareFacts(a.time, a.time); }
  }

  /** Texts of one length, such as timestamps of one zone, are ordered by their first
      difference alone. */
  lemma LaterComesFirst(p: string, x: char, s: string, y: char, t: string, a: Stamp, b: Stamp)
    requires a.time == Some(p + [x] + s) && b.time == Some(p + [y] + t) && y < x
    ensures Before(a, b)
  {
    var l, e := p + [x] + s, p + [y] + t;
    assert l[..|p|] == p == e[..|p|];
    assert FirstDifference(e, l, |p|);
    BeforeIff(a, b);
  }

  // ----- sorting ------------------------------------------------------------------------------

  ghost predicate Ordered(s: seq<Stamp>) {
    forall i, j | 0 <= i < j < |s| :: !Before(s[j], s[i])
  }

  function Insert(x: Stamp, s: seq<Stamp>): seq<Stamp> {
    if s == [] || !Before(s[0], x) then [x] + s else [s[0]] + Insert(x, s[1..])
  }

  /** What the C library's sort is relied on for: an ordered permutation. Any other sort
      gives the same sequence, by OrderedIsUnique. */
  function Sort(s: seq<Stamp>): seq<Stamp> {
    if s == [] then [] else Insert(s[0], Sort(s[1..]))
  }

  lemma {:induction false} InsertPermutes(x: Stamp, s: seq<Stamp>)
    ensures multiset(Insert(x, s)) == multiset(s) + multiset{x}
  {
    if s != [] && Before(s[0], x) {
      InsertPermutes(x, s[1..]);
      assert s == [s[0]] + s[1..];
    }
  }

  lemma {:induction false} SortPermutes(s: seq<Stamp>)
    ensures multiset(Sort(s)) == multiset(s)
  {
    if s != [] {
      SortPermutes(s[1..]);
      InsertPermutes(s[0], Sort(s[1..]));
      assert s == [s[0]] + s[1..];
    }
  }

  lemma {:induction false} InsertOrders(x: Stamp, s: seq<Stamp>)
    requires Ordered(s)
    ensures Ordered(Insert(x, s))
  {
    if s == [] {
    } else if !Before(s[0], x) {
      forall k | 0 <= k < |s| ensures !Before(s[k], x) {
        if k > 0 && Before(s[k], x) { NotBeforeChains(s[k], s[0], x); }
      }
    } else {
      InsertOrders(x, s[1..]);
      InsertPermutes(x, s[1..]);
      var t := Insert(x, s[1..]);
      forall k | 0 <= k < |t| ensures !Before(t[k], s[0]) {
        assert t[k] in multiset(t);
        BeforeIsTotal(s[0], x);
      }
    }
  }

  lemma NotBeforeChains(a: Stamp, b: Stamp, c: Stamp)
    requires !Before(a, b) && Before(a, c)
    ensures Before(b, c)
  {
    BeforeIsTotal(a, b);
    if a != b { BeforeChains(b, a, c); }
  }

  lemma {:induction false} SortOrders(s: seq<Stamp>)
    ensures Ordered(Sort(s))
  {
    if s != [] {
      SortOrders(s[1..]);
      InsertOrders(s[0], Sort(s[1..]));
    }
  }

  /** There is only one ordered arrangement of a collection of messages, so the result does
      not depend on the order in which they were enumerated or on the sort used. */
  lemma {:induction false} OrderedIsUnique(s: seq<Stamp>, t: seq<Stamp>)
    requires Ordered(s) && Ordered(t) && multiset(s) == multiset(t)
    ensures s == t
  {
    if s == [] {
      assert |t| == |multiset(t)| == 0;
    } else {
      assert |s| == |multiset(s)| == |t|;
      FirstIsLeast(s, t);
      TailCounts(s);
      TailCounts(t);
      OrderedIsUnique(s[1..], t[1..]);
      assert s == [s[0]] + s[1..] && t == [t[0]] + t[1..];
    }
  }

  lemma TailCounts(s: seq<Stamp>)
    requires s != []
    ensures multiset(s[1..]) == multiset(s) - multiset{s[0]}
  {
    assert s == [s[0]] + s[1..];
  }

  lemma FirstIsLeast(s: seq<Stamp>, t: seq<Stamp>)
    requires Ordered(s) && Ordered(t) && multiset(s) == multiset(t) && s != [] && t != []
    ensures s[0] == t[0]
  {
    assert s[0] in multiset(t) && t[0] in multiset(s);
    var i :| 0 <= i < |t| && t[i] == s[0];
    var j :| 0 <= j < |s| && s[j] == t[0];
    BeforeIsTotal(s[0], t[0]);
    if i > 0 && j > 0 {
      assert !Before(t[i], t[0]) && !Before(s[j], s[0]);
    }
  }

  // ----- rank in an ordered sequence without repetition ------------------------------------------

  ghost predicate Distinct(s: seq<Stamp>) {
    forall i, j | 0 <= i < j < |s| :: s[i] != s[j]
  }

  ghost function Elements(s: seq<Stamp>): set<Stamp> {
    set k | 0 <= k < |s| :: s[k]
  }

  ghost function Newer(all: set<Stamp>, m: Stamp): set<Stamp> {
    set x | x in all && Before(x, m)
  }

  lemma {:induction false} DistinctSize(s: seq<Stamp>)
    requires Distinct(s)
    ensures |Elements(s)| == |s|
  {
    if s != [] {
      var last := |s| - 1;
      DistinctSize(s[..last]);
      assert Elements(s) == Elements(s[..last]) + {s[last]};
    }
  }

  lemma RankIsIndex(s: seq<Stamp>, i: nat)
    requires Ordered(s) && Distinct(s) && i < |s|
    ensures |Newer(Elements(s), s[i])| == i
  {
    forall k | 0 <= k < |s| ensures Before(s[k], s[i]) <==> k < i {
      BeforeIsTotal(s[k], s[i]);
    }
    assert Newer(Elements(s), s[i]) == Elements(s[..i]);
    DistinctSize(s[..i]);
  }

  /** The first `n` of an ordered sequence are exactly the messages that fewer than `n`
      others precede. */
  lemma PrefixIsNewest(s: seq<Stamp>, n: nat)
    requires Ordered(s) && Distinct(s)
    ensures Elements(s[..if n < |s| then n else |s|]) == set m | m in Elements(s) && |Newer(Elements(s), m)| < n
  {
    var cut := if n < |s| then n else |s|;
    forall k | 0 <= k < |s| ensures k < cut <==> |Newer(Elements(s), s[k])| < n {
      RankIsIndex(s, k);
    }
    forall k | 0 <= k < |s| ensures s[k] in Elements(s[..cut]) <==> k < cut {
      if k < cut { assert s[..cut][k] == s[k]; }
    }
  }

  /** Of two messages that fewer and at least `n` others precede, the second is not later. */
  lemma CutIsByTime(all: set<Stamp>, n: nat, m: Stamp, x: Stamp)
    requires m in all && x in all && |Newer(all, m)| < n <= |Newer(all, x)|
    ensures Before(m, x) && !Lower(m.time, x.time)
  {
    BeforeIsTotal(m, x);
    BeforeIff(x, m);
    if !Before(m, x) {
      forall y | y in Newer(all, x) ensures y in Newer(all, m) {
        if x != m { BeforeChains(y, x, m); }
      }
      SubsetSize(Newer(all, x), Newer(all, m));
    }
  }
}
