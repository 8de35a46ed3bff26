/** The SMS cache of one modem (bridge.c): object paths mapped to message IDs, kept in step
    with ModemManager by signals and whole-list replies, across messaging epochs. */
module SmsCache {
  import opened Common
  import opened Stamps

  type Path = string
  /** Message IDs carry a prefix, so none is empty. */
  type Id = s: string | s != "" witness "sms-"

  const MAX_SMS_CACHE: nat := 1024
  const RANDOM_RETRIES: nat := 8
  const MAX_UINT32: nat := 0xFFFF_FFFF
  const MAX_UINT64: nat := 0xFFFF_FFFF_FFFF_FFFF

  datatype Status = Absent | Loading | Ready | ReadyTruncated | Cancelled | Unavailable

  datatype Mailbox = Mailbox(
    live: bool,
    messaging: Option<nat>,
    epoch: nat,
    cache: map<Path, Id>,
    reserved: set<Id>,
    tombstones: set<Path>,
    pending: bool,
    dirty: bool,
    truncated: bool,
    status: Status,
    revision: nat)

  predicate PathChar(c: char) {
    'a' <= c <= 'z' || 'A' <= c <= 'Z' || '0' <= c <= '9' || c == '_'
  }

  /** Elements behind a slash: none is empty, and the text does not end with a slash. */
  predicate PathElements(s: string, afterSlash: bool) {
    if s == [] then !afterSlash
    else if s[0] == '/' then !afterSlash && PathElements(s[1..], true)
    else PathChar(s[0]) && PathElements(s[1..], false)
  }

  /** D-Bus object paths: the root, or slash-led non-empty elements. */
  predicate IsObjectPath(s: string) {
    s == "/" || (s != [] && s[0] == '/' && PathElements(s[1..], true))
  }

  /** A listed message is its timestamp and object path. */
  predicate ValidMessage(m: Stamp) {
    m.name.Some? && IsObjectPath(m.name.value)
  }

  predicate IsReady(status: Status) {
    status == Ready || status == ReadyTruncated
  }

  /** Cached IDs are pairwise distinct and none of them is reserved. */
  ghost predicate IdsOk(s: Mailbox) {
    Injective(s.cache) && s.cache.Values !! s.reserved
  }

  ghost predicate Injective(m: map<Path, Id>) {
    forall p, q | p in m && q in m && m[p] == m[q] :: p == q
  }

  ghost predicate Free(s: Mailbox, id: Id) {
    id !in s.cache.Values && id !in s.reserved
  }

  // ----- updates ----------------------------------------------------------------------------

  function Bump(s: Mailbox): Mailbox {
    if s.revision < MAX_UINT64 then s.(revision := s.revision + 1) else s
  }

  /** Ask for a whole list; while one is in flight only the dirty bit is set. */
  function Query(s: Mailbox): Mailbox {
    if !s.live || s.messaging.None? then s
    else if s.pending then s.(dirty := true)
    else s.(pending := true, status := if IsReady(s.status) then s.status else Loading)
  }

  predicate Dispatches(s: Mailbox) {
    s.live && s.messaging.Some? && !s.pending
  }

  function AddedBox(s: Mailbox, path: Option<Path>): Mailbox {
    if s.live then Bump(Unmarked(s, path)) else s
  }

  function Unmarked(s: Mailbox, path: Option<Path>): Mailbox {
    if path.Some? && IsObjectPath(path.value) then s.(tombstones := s.tombstones - {path.value}) else s
  }

  predicate DeletedApplies(s: Mailbox, path: Option<Path>) {
    s.live && path.Some? && IsObjectPath(path.value)
  }

  function DeletedBox(s: Mailbox, path: Option<Path>): Mailbox
    requires DeletedApplies(s, path)
  {
    if path.value in s.cache then Bump(Marked(s, path.value).(cache := s.cache - {path.value})) else Marked(s, path.value)
  }

  function Marked(s: Mailbox, path: Path): Mailbox {
    if |s.tombstones| < MAX_SMS_CACHE then s.(tombstones := s.tombstones + {path}) else s
  }

  /** A new messaging epoch: everything tied to the old proxy is dropped. */
  function Reset(s: Mailbox): Mailbox {
    s.(messaging := None, cache := map[], reserved := {}, tombstones := {}, pending := false, dirty := false, truncated := false)
  }

  function EpochBox(s: Mailbox, proxy: Option<nat>): Mailbox {
    if s.epoch == MAX_UINT32 then Reset(s).(status := Unavailable)
    else
      var t := Bump(Reset(s).(epoch := s.epoch + 1));
      if proxy.None? then t.(status := Absent) else t.(messaging := proxy)
  }

  function Remove(s: Mailbox): Mailbox {
    s.(live := false, cache := map[])
  }

  function Reserve(s: Mailbox, drawn: Option<Id>): Mailbox {
    if s.live && drawn.Some? then s.(reserved := s.reserved + {drawn.value}) else s
  }

  function ReleaseId(s: Mailbox, id: Id): Mailbox {
    s.(reserved := s.reserved - {id})
  }

  /** Entry of a message created by this bridge, under its reserved ID or a drawn one. */
  function Admit(s: Mailbox, path: Path, reservedId: Option<Id>, drawn: Option<Id>): Mailbox {
    if !s.live || s.messaging.None? || (reservedId.Some? && reservedId.value !in s.reserved) || !IsObjectPath(path) then s
    else if path in s.cache then
      if reservedId.None? then s
      else if s.cache[path] == reservedId.value then ReleaseId(s, reservedId.value)
      else if reservedId.value in s.cache.Values then s
      else ReleaseId(Bump(s.(cache := s.cache[path := reservedId.value])), reservedId.value)
    else if |s.cache| >= MAX_SMS_CACHE then s.(truncated := true)
    else
      var id := if reservedId.Some? then reservedId else drawn;
      if id.None? then s.(status := Unavailable, cache := map[])
      else
        var t := Bump(s.(cache := s.cache[path := id.value]));
        if reservedId.Some? then ReleaseId(t, reservedId.value) else t
  }

  // ----- whole-list replies --------------------------------------------------------------------

  function Eligible(sorted: seq<Stamp>, tombstones: set<Path>): seq<Stamp> {
    if sorted == [] then []
    else
      var rest := Eligible(sorted[..|sorted| - 1], tombstones);
      var m := sorted[|sorted| - 1];
      if ValidMessage(m) && m.name.value !in tombstones then rest + [m] else rest
  }

  ghost function PathsOf(messages: seq<Stamp>): set<Path> {
    set k | 0 <= k < |messages| && ValidMessage(messages[k]) :: messages[k].name.value
  }

  ghost predicate DistinctPaths(messages: seq<Stamp>) {
    forall i, j | 0 <= i < j < |messages| && ValidMessage(messages[i]) && ValidMessage(messages[j]) ::
      messages[i].name != messages[j].name
  }

  function Kept(eligible: seq<Stamp>): seq<Stamp> {
    if |eligible| > MAX_SMS_CACHE then eligible[..MAX_SMS_CACHE] else eligible
  }

  /** A path that stays keeps its ID; a path that is new gets an ID no cached path had. */
  ghost predicate IdsCarried(before: map<Path, Id>, after: map<Path, Id>) {
    forall p | p in after :: if p in before then after[p] == before[p] else after[p] !in before.Values
  }

  /** `cache` is what a list of `messages` makes of the old cache. */
  ghost predicate CacheFrom(s: Mailbox, messages: seq<Stamp>, cache: map<Path, Id>) {
    var kept := Kept(Eligible(Sort(messages), s.tombstones));
    && cache.Keys == PathsOf(kept)
    && Injective(cache) && cache.Values !! s.reserved
    && (DistinctPaths(messages) ==> IdsCarried(s.cache, cache))
  }

  function Requery(s: Mailbox, wanted: bool): Mailbox {
    if wanted then Query(s) else s
  }

  function Answered(s: Mailbox): Mailbox {
    s.(pending := false, dirty := false)
  }

  ghost function Placed(s: Mailbox, messages: seq<Stamp>, cache: map<Path, Id>): Mailbox {
    var cut := |Eligible(Sort(messages), s.tombstones)| > MAX_SMS_CACHE;
    s.(cache := cache, truncated := cut, status := if cut then ReadyTruncated else Ready,
       tombstones := s.tombstones * PathsOf(messages))
  }

  /** The mailbox after a list was installed. */
  ghost function Installed(s: Mailbox, messages: seq<Stamp>, cache: map<Path, Id>): Mailbox {
    Requery(Bump(Placed(Answered(s), messages, cache)), s.dirty)
  }

  function FailedStatus(cancelled: bool): Status {
    if cancelled then Cancelled else Unavailable
  }

  /** The mailbox after a list call failed or an ID could not be drawn. */
  function Emptied(s: Mailbox, status: Status): Mailbox {
    Requery(Bump(Answered(s).(cache := map[], status := status)), s.dirty)
  }

  /** A reply counts only for the live modem, proxy and epoch that asked. */
  predicate Current(s: Mailbox, epoch: nat, proxy: nat) {
    s.live && s.messaging == Some(proxy) && s.epoch == epoch
  }

  datatype Reply = Failed(cancelled: bool) | Listed(messages: seq<Stamp>)

  /** What a list reply does to the mailbox; `drawFails` tells whether an ID that the list
      needed could not be drawn. */
  ghost predicate ListStep(s: Mailbox, epoch: nat, proxy: nat, reply: Reply, drawFails: bool, t: Mailbox) {
    if !Current(s, epoch, proxy) then t == s
    else match reply
      case Failed(cancelled) => t == Emptied(s, FailedStatus(cancelled))
      case Listed(messages) =>
        if drawFails then t == Emptied(s, Unavailable)
        else t == Installed(s, messages, t.cache) && CacheFrom(s, messages, t.cache)
  }

  // ----- what a successful list leaves ------------------------------------------------------------

  lemma {:induction false} EligibleIs(sorted: seq<Stamp>, tombstones: set<Path>)
    ensures var e := Eligible(sorted, tombstones);
            && |e| <= |sorted|
            && (forall i | 0 <= i < |e| :: e[i] in sorted && ValidMessage(e[i]) && e[i].name.value !in tombstones)
            && (forall m | m in sorted && ValidMessage(m) && m.name.value !in tombstones :: m in e)
  {
    if sorted != [] {
      EligibleIs(sorted[..|sorted| - 1], tombstones);
      assert sorted == sorted[..|sorted| - 1] + [sorted[|sorted| - 1]];
    }
  }

  lemma EligibleGrows(sorted: seq<Stamp>, tombstones: set<Path>)
    requires sorted != []
    ensures var e, m := Eligible(sorted[..|sorted| - 1], tombstones), sorted[|sorted| - 1];
            && (forall i | 0 <= i < |e| :: exists k | 0 <= k < |sorted| - 1 :: sorted[k] == e[i])
            && (Eligible(sorted, tombstones) == e || Eligible(sorted, tombstones) == e + [m])
  {
    var shorter := sorted[..|sorted| - 1];
    EligibleIs(shorter, tombstones);
    var e := Eligible(shorter, tombstones);
    forall i | 0 <= i < |e| ensures exists k | 0 <= k < |sorted| - 1 :: sorted[k] == e[i] {
      assert e[i] in shorter;
      var k :| 0 <= k < |shorter| && shorter[k] == e[i];
      assert sorted[k] == e[i];
    }
  }

  /** Filtering keeps the order. */
  lemma {:induction false} EligibleOrdered(sorted: seq<Stamp>, tombstones: set<Path>)
    requires Ordered(sorted)
    ensures Ordered(Eligible(sorted, tombstones))
  {
    if sorted != [] {
      EligibleOrdered(sorted[..|sorted| - 1], tombstones);
      EligibleGrows(sorted, tombstones);
    }
  }

  /** Filtering a list of distinct paths repeats nothing. */
  lemma {:induction false} EligibleDistinct(sorted: seq<Stamp>, tombstones: set<Path>)
    requires DistinctPaths(sorted)
    ensures Distinct(Eligible(sorted, tombstones))
  {
    if sorted != [] {
      var last := |sorted| - 1;
      EligibleDistinct(sorted[..last], tombstones);
      EligibleGrows(sorted, tombstones);
      EligibleIs(sorted, tombstones);
      EligibleIs(sorted[..last], tombstones);
      var e := Eligible(sorted[..last], tombstones);
      forall i | 0 <= i < |e| && ValidMessage(sorted[last]) ensures e[i] != sorted[last] {
        var k :| 0 <= k < last && sorted[k] == e[i];
        assert ValidMessage(sorted[k]);
      }
    }
  }

  lemma PermutedPathsDistinct(a: seq<Stamp>, b: seq<Stamp>)
    requires multiset(a) == multiset(b) && DistinctPaths(a)
    ensures DistinctPaths(b)
  {
    forall i, j | 0 <= i < j < |b| && ValidMessage(b[i]) && ValidMessage(b[j]) ensures b[i].name != b[j].name {
      if b[i] == b[j] {
        TwiceInMultiset(b, i, j);
        TwiceAtPositions(a, b[i]);
      } else {
        assert b[i] in multiset(a) && b[j] in multiset(a);
        var x :| 0 <= x < |a| && a[x] == b[i];
        var y :| 0 <= y < |a| && a[y] == b[j];
        assert x < y || y < x;
      }
    }
  }

  ghost function EligibleSet(messages: seq<Stamp>, tombstones: set<Path>): set<Stamp> {
    set m | m in messages && ValidMessage(m) && m.name.value !in tombstones
  }

  lemma EligibleFacts(messages: seq<Stamp>, tombstones: set<Path>)
    requires DistinctPaths(messages)
    ensures var e := Eligible(Sort(messages), tombstones);
            Ordered(e) && Distinct(e) && Elements(e) == EligibleSet(messages, tombstones)
            && |e| == |EligibleSet(messages, tombstones)| && forall i | 0 <= i < |e| :: ValidMessage(e[i])
  {
    var sorted := Sort(messages);
    SortOrders(messages);
    SortPermutes(messages);
    EligibleOrdered(sorted, tombstones);
    EligibleIs(sorted, tombstones);
    PermutedPathsDistinct(messages, sorted);
    EligibleDistinct(sorted, tombstones);
    var e := Eligible(sorted, tombstones);
    forall m ensures m in messages <==> m in sorted {
      assert m in messages <==> m in multiset(messages);
      assert m in sorted <==> m in multiset(sorted);
    }
    DistinctSize(e);
  }

  lemma KeptPaths(kept: seq<Stamp>, all: set<Stamp>, p: Path)
    requires forall i | 0 <= i < |kept| :: ValidMessage(kept[i])
    requires Elements(kept) == set m | m in all && |Newer(all, m)| < MAX_SMS_CACHE
    ensures p in PathsOf(kept) <==> exists m :: m in all && m.name == Some(p) && |Newer(all, m)| < MAX_SMS_CACHE
  {
    if p in PathsOf(kept) {
      var k :| 0 <= k < |kept| && ValidMessage(kept[k]) && kept[k].name.value == p;
      assert kept[k] in Elements(kept);
    }
    if m :| m in all && m.name == Some(p) && |Newer(all, m)| < MAX_SMS_CACHE {
      assert m in Elements(kept);
      var k :| 0 <= k < |kept| && kept[k] == m;
      assert ValidMessage(kept[k]);
    }
  }

  lemma KeptIsNewest(messages: seq<Stamp>, tombstones: set<Path>, p: Path)
    requires DistinctPaths(messages)
    ensures var all := EligibleSet(messages, tombstones);
            p in PathsOf(Kept(Eligible(Sort(messages), tombstones))) <==>
            exists m :: m in all && m.name == Some(p) && |Newer(all, m)| < MAX_SMS_CACHE
  {
    var e := Eligible(Sort(messages), tombstones);
    EligibleFacts(messages, tombstones);
    PrefixIsNewest(e, MAX_SMS_CACHE);
    assert Kept(e) == e[..if MAX_SMS_CACHE < |e| then MAX_SMS_CACHE else |e|];
    KeptPaths(Kept(e), EligibleSet(messages, tombstones), p);
  }

  lemma SamePathSameMessage(messages: seq<Stamp>, tombstones: set<Path>, m: Stamp, x: Stamp)
    requires DistinctPaths(messages) && m in EligibleSet(messages, tombstones) && x in EligibleSet(messages, tombstones)
    requires m.name == x.name
    ensures m == x
  {
    var i :| 0 <= i < |messages| && messages[i] == m;
    var j :| 0 <= j < |messages| && messages[j] == x;
    assert i < j || j < i || i == j;
  }

  /** A message left out is not later than one that is kept. */
  lemma KeptIsNotEarlier(messages: seq<Stamp>, tombstones: set<Path>, m: Stamp, x: Stamp)
    requires DistinctPaths(messages) && m in EligibleSet(messages, tombstones) && x in EligibleSet(messages, tombstones)
    requires m.name.value in PathsOf(Kept(Eligible(Sort(messages), tombstones)))
    requires x.name.value !in PathsOf(Kept(Eligible(Sort(messages), tombstones)))
    ensures !Lower(m.time, x.time)
  {
    var all := EligibleSet(messages, tombstones);
    KeptIsNewest(messages, tombstones, m.name.value);
    KeptIsNewest(messages, tombstones, x.name.value);
    var k :| k in all && k.name == m.name && |Newer(all, k)| < MAX_SMS_CACHE;
    SamePathSameMessage(messages, tombstones, m, k);
    CutIsByTime(all, MAX_SMS_CACHE, m, x);
  }

  lemma InstalledMarks(s: Mailbox, messages: seq<Stamp>, cache: map<Path, Id>)
    ensures var cut := |Eligible(Sort(messages), s.tombstones)| > MAX_SMS_CACHE;
            var t := Installed(s, messages, cache);
            t.truncated == cut && t.status == (if cut then ReadyTruncated else Ready)
  {
  }

  /** After a successful list of distinct paths the cache holds exactly the messages that are
      valid, not tombstoned and preceded by fewer than 1,024 others of that kind, so that none
      left out is later than one kept; it is marked truncated exactly when there were more; and
      every path kept keeps its ID. */
  lemma ListGivesNewest(s: Mailbox, messages: seq<Stamp>, cache: map<Path, Id>)
    requires DistinctPaths(messages) && CacheFrom(s, messages, cache)
    ensures var all := EligibleSet(messages, s.tombstones);
            && (forall p :: p in cache <==> exists m :: m in all && m.name == Some(p) && |Newer(all, m)| < MAX_SMS_CACHE)
            && (Installed(s, messages, cache).truncated <==> |all| > MAX_SMS_CACHE)
            && Installed(s, messages, cache).status == (if |all| > MAX_SMS_CACHE then ReadyTruncated else Ready)
            && (forall m, x | m in all && x in all && m.name.value in cache && x.name.value !in cache :: !Lower(m.time, x.time))
            && IdsCarried(s.cache, cache)
  {
    var all := EligibleSet(messages, s.tombstones);
    EligibleFacts(messages, s.tombstones);
    InstalledMarks(s, messages, cache);
    forall p ensures p in cache <==> exists m :: m in all && m.name == Some(p) && |Newer(all, m)| < MAX_SMS_CACHE {
      KeptIsNewest(messages, s.tombstones, p);
      assert p in cache <==> p in cache.Keys;
    }
    forall m, x | m in all && x in all && m.name.value in cache && x.name.value !in cache ensures !Lower(m.time, x.time) {
      KeptIsNotEarlier(messages, s.tombstones, m, x);
    }
  }

  lemma PathsGrow(messages: seq<Stamp>, n: nat)
    requires n < |messages|
    ensures var m := messages[n];
            PathsOf(messages[..n + 1]) == PathsOf(messages[..n]) + (if ValidMessage(m) then {m.name.value} else {})
  {
    var longer, shorter := messages[..n + 1], messages[..n];
    forall k | 0 <= k < n ensures longer[k] == shorter[k] {
    }
    forall p ensures p in PathsOf(longer) <==> p in PathsOf(shorter) || (ValidMessage(messages[n]) && p == messages[n].name.value) {
      if p in PathsOf(longer) {
        var k :| 0 <= k < |longer| && ValidMessage(longer[k]) && longer[k].name.value == p;
        if k < n { assert ValidMessage(shorter[k]); }
      }
      if p in PathsOf(shorter) {
        var k :| 0 <= k < |shorter| && ValidMessage(shorter[k]) && shorter[k].name.value == p;
        assert ValidMessage(longer[k]);
      }
      if ValidMessage(messages[n]) { assert ValidMessage(longer[n]); }
    }
  }

  lemma {:induction false} PathsBounded(messages: seq<Stamp>)
    ensures |PathsOf(messages)| <= |messages|
  {
    if messages != [] {
      var last := |messages| - 1;
      PathsBounded(messages[..last]);
      PathsGrow(messages, last);
      assert messages[..last + 1] == messages;
    }
  }
}
