/** The listing of a live cache: each cached message has a proxy whose folder and timestamp
    may change at any time, and a browser that loads page after page sees one view of it. */
module SmsListing {
  import opened Common
  import opened Stamps
  import opened SmsCache
  import opened SmsCacheRuns
  import opened SmsPaging

  /** What the proxy of a message says about it. */
  datatype Details = Details(folder: Folder, time: Option<string>)

  /** The mailbox with the proxies of its cached messages. */
  datatype Shelf = Shelf(world: World, details: Path -> Details)

  /** Whether the event changes the proxy of `p` or what it says. */
  predicate Touches(w: World, e: Event, p: Path) {
    match e
    case PropertyChange(path) => path == p
    case Admits(path, reservedId, _) =>
      && path == p && w.box.live && w.box.messaging.Some? && IsObjectPath(path)
      && (reservedId.Some? ==> reservedId.value in w.box.reserved)
    case Replies(_, _, _) => Counts(w, e)
    case _ => false
  }

  /** One event; `brought` is what the proxies it touches say afterwards. */
  ghost predicate Follows(s: Shelf, e: Event, brought: Path -> Details, t: Shelf) {
    && Enabled(s.world, e) && Next(s.world, e, t.world)
    && forall p | p in t.world.box.cache :: t.details(p) == if Touches(s.world, e, p) then brought(p) else s.details(p)
  }

  ghost predicate Run(shelves: seq<Shelf>, events: seq<Event>, brought: seq<Path -> Details>) {
    && |shelves| == |events| + 1 && |brought| == |events| && shelves[0].world == Start()
    && forall k | 0 <= k < |events| :: Follows(shelves[k], events[k], brought[k], shelves[k + 1])
  }

  // ----- equal revisions, equal views ------------------------------------------------------------------

  /** The same paths, IDs, folders and timestamps. */
  ghost predicate SameShown(s: Shelf, t: Shelf) {
    && t.world.box.cache == s.world.box.cache
    && forall p | p in s.world.box.cache :: t.details(p) == s.details(p)
  }

  /** Admission without a reserved ID of a path that is cached already, with a proxy that does
      not say what the old one said. */
  ghost predicate Swaps(s: Shelf, e: Event, brought: Path -> Details) {
    && e.Admits? && e.reservedId.None? && e.admitted in s.world.box.cache
    && Touches(s.world, e, e.admitted) && brought(e.admitted) != s.details(e.admitted)
  }

  /** The revision did not move and the cache serves. */
  ghost predicate Unmoved(s: Shelf, t: Shelf) {
    t.world.box.revision == s.world.box.revision < MAX_UINT64 && Serves(t.world.box)
  }

  lemma TouchMoves(s: Shelf, e: Event, brought: Path -> Details, t: Shelf, p: Path)
    requires Follows(s, e, brought, t) && IdsOk(s.world.box) && Unmoved(s, t)
    requires p in s.world.box.cache && Touches(s.world, e, p)
    ensures e.Admits? && e.reservedId.None?
  {
    assert s.world.box.cache[p] in s.world.box.cache.Values;
  }

  /** A step that keeps the revision of a serving cache keeps all that it shows, exactly when
      it does not swap the proxy of a cached message for one that says something else. */
  lemma StepShowsIff(s: Shelf, e: Event, brought: Path -> Details, t: Shelf)
    requires Follows(s, e, brought, t) && IdsOk(s.world.box)
    ensures s.world.box.revision <= t.world.box.revision
    ensures Unmoved(s, t) ==> Serves(s.world.box) && (SameShown(s, t) <==> !Swaps(s, e, brought))
  {
    StepForward(s.world, e, t.world);
    if Unmoved(s, t) {
      forall p | p in s.world.box.cache && Touches(s.world, e, p) ensures e.Admits? && e.reservedId.None? && e.admitted == p {
        TouchMoves(s, e, brought, t, p);
      }
    }
  }

  lemma RunIsHistory(shelves: seq<Shelf>, events: seq<Event>, brought: seq<Path -> Details>) returns (states: seq<World>)
    requires Run(shelves, events, brought)
    ensures History(states, events) && |states| == |shelves|
    ensures forall k | 0 <= k < |shelves| :: states[k] == shelves[k].world
  {
    states := seq(|shelves|, k requires 0 <= k < |shelves| => shelves[k].world);
    forall k | 0 <= k < |events| ensures Enabled(states[k], events[k]) && Next(states[k], events[k], states[k + 1]) {
      assert Follows(shelves[k], events[k], brought[k], shelves[k + 1]);
    }
  }

  lemma RunIds(shelves: seq<Shelf>, events: seq<Event>, brought: seq<Path -> Details>, k: nat)
    requires Run(shelves, events, brought) && k < |shelves|
    ensures BoxOk(shelves[k].world.box) && IdsOk(shelves[k].world.box)
  {
    var states := RunIsHistory(shelves, events, brought);
    IdsStayDistinct(states, events, k);
  }

  /** From each shelf to the next: the revision rises or the view is the same. */
  ghost predicate Steady(shelves: seq<Shelf>, i: nat, j: nat)
    requires j < |shelves|
  {
    forall k, l | i <= k < l <= j && l == k + 1 ::
      && shelves[k].world.box.revision <= shelves[l].world.box.revision
      && (Unmoved(shelves[k], shelves[l]) ==> Serves(shelves[k].world.box) && SameShown(shelves[k], shelves[l]))
  }

  lemma {:induction false} SteadyShows(shelves: seq<Shelf>, i: nat, j: nat)
    requires i <= j < |shelves| && Steady(shelves, i, j)
    ensures shelves[i].world.box.revision <= shelves[j].world.box.revision
    ensures Unmoved(shelves[i], shelves[j]) ==> Serves(shelves[i].world.box) && SameShown(shelves[i], shelves[j])
  {
    if i < j { SteadyShows(shelves, i, j - 1); }
  }

  /** No proxy is swapped from position i up to j. */
  ghost predicate Unswapped(shelves: seq<Shelf>, events: seq<Event>, brought: seq<Path -> Details>, i: nat, j: nat)
    requires |events| < |shelves| && |brought| == |events| && j <= |events|
  {
    forall k | i <= k < j :: !Swaps(shelves[k], events[k], brought[k])
  }

  lemma RunSteady(shelves: seq<Shelf>, events: seq<Event>, brought: seq<Path -> Details>, i: nat, j: nat)
    requires Run(shelves, events, brought) && i <= j <= |events| && Unswapped(shelves, events, brought, i, j)
    ensures Steady(shelves, i, j)
  {
    forall k, l | i <= k < l <= j && l == k + 1
      ensures shelves[k].world.box.revision <= shelves[l].world.box.revision
      ensures Unmoved(shelves[k], shelves[l]) ==> Serves(shelves[k].world.box) && SameShown(shelves[k], shelves[l])
    {
      RunIds(shelves, events, brought, k);
      assert Follows(shelves[k], events[k], brought[k], shelves[k + 1]);
      StepShowsIff(shelves[k], events[k], brought[k], shelves[l]);
    }
  }

  /** Two moments with the same revision below saturation, the later one serving: between them
      nothing that a listing shows has changed. */
  lemma SameRevisionSameView(shelves: seq<Shelf>, events: seq<Event>, brought: seq<Path -> Details>, i: nat, j: nat)
    requires Run(shelves, events, brought) && i <= j <= |events| && Unswapped(shelves, events, brought, i, j)
    ensures shelves[i].world.box.revision <= shelves[j].world.box.revision
    ensures Unmoved(shelves[i], shelves[j]) ==> Serves(shelves[i].world.box) && SameShown(shelves[i], shelves[j])
  {
    RunSteady(shelves, events, brought, i, j);
    SteadyShows(shelves, i, j);
  }

  // ----- snapshots --------------------------------------------------------------------------------------

  function ItemAt(s: Shelf, p: Path): Item
    requires p in s.world.box.cache
  {
    Item(s.details(p).folder, Stamp(s.details(p).time, Some(s.world.box.cache[p])))
  }

  ghost function Items(s: Shelf): set<Item> {
    set p | p in s.world.box.cache :: ItemAt(s, p)
  }

  /** A walk of the hash table: every cached message once, in any order. */
  ghost predicate Snapshot(items: seq<Item>, s: Shelf) {
    multiset(items) == multiset(Items(s))
  }

  lemma SnapshotItem(items: seq<Item>, s: Shelf, i: nat) returns (p: Path)
    requires Snapshot(items, s) && i < |items|
    ensures p in s.world.box.cache && items[i] == ItemAt(s, p)
  {
    assert items[i] in multiset(items);
    assert items[i] in Items(s);
    p :| p in s.world.box.cache && items[i] == ItemAt(s, p);
  }

  ghost predicate DistinctIds(items: seq<Item>) {
    forall i, j | 0 <= i < j < |items| :: items[i].stamp.name != items[j].stamp.name
  }

  lemma SnapshotDistinct(items: seq<Item>, s: Shelf)
    requires Snapshot(items, s) && IdsOk(s.world.box)
    ensures DistinctIds(items)
  {
    forall i, j | 0 <= i < j < |items| ensures items[i].stamp.name != items[j].stamp.name {
      var p := SnapshotItem(items, s, i);
      var q := SnapshotItem(items, s, j);
      if p == q { TwiceInMultiset(items, i, j); }
    }
  }

  /** Every filtered message is one of the items. */
  lemma {:induction false} FilteredFrom(items: seq<Item>, folder: Folder, m: Stamp)
    requires m in Filtered(items, folder)
    ensures exists k | 0 <= k < |items| :: items[k].stamp == m
  {
    var last := |items| - 1;
    if m == items[last].stamp {
    } else {
      FilteredFrom(items[..last], folder, m);
      var k :| 0 <= k < last && items[..last][k].stamp == m;
      assert items[k].stamp == m;
    }
  }

  ghost predicate DistinctNames(view: seq<Stamp>) {
    forall i, j | 0 <= i < j < |view| :: view[i].name != view[j].name
  }

  lemma {:induction false} FilteredDistinct(items: seq<Item>, folder: Folder)
    requires DistinctIds(items)
    ensures DistinctNames(Filtered(items, folder)) && |Filtered(items, folder)| <= |items|
  {
    if items != [] {
      var last := |items| - 1;
      FilteredDistinct(items[..last], folder);
      var rest := Filtered(items[..last], folder);
      forall i | 0 <= i < |rest| ensures rest[i].name != items[last].stamp.name {
        FilteredFrom(items[..last], folder, rest[i]);
      }
    }
  }

  lemma SortedDistinct(view: seq<Stamp>)
    requires DistinctNames(view)
    ensures DistinctNames(Sort(view)) && |Sort(view)| == |view|
  {
    SortPermutes(view);
    var sorted := Sort(view);
    assert |sorted| == |multiset(sorted)| == |multiset(view)| == |view|;
    forall i, j | 0 <= i < j < |sorted| ensures sorted[i].name != sorted[j].name {
      assert sorted[i] in multiset(view) && sorted[j] in multiset(view);
      if sorted[i] == sorted[j] {
        TwiceInMultiset(sorted, i, j);
        TwiceAtPositions(view, sorted[i]);
      } else {
        var x :| 0 <= x < |view| && view[x] == sorted[i];
        var y :| 0 <= y < |view| && view[y] == sorted[j];
        assert x < y || y < x;
      }
    }
  }

  lemma ListedIsCached(items: seq<Item>, s: Shelf, folder: Folder, m: Stamp)
    requires Snapshot(items, s) && m in Listing(items, folder)
    ensures m.name.Some? && m.name.value != ""
  {
    SortPermutes(Filtered(items, folder));
    assert m in multiset(Filtered(items, folder));
    FilteredFrom(items, folder, m);
    var k :| 0 <= k < |items| && items[k].stamp == m;
    var p := SnapshotItem(items, s, k);
  }

  /** The IDs of a listing are present and distinct, whatever the cache holds. */
  lemma ListingIds(items: seq<Item>, s: Shelf, folder: Folder)
    requires Snapshot(items, s) && IdsOk(s.world.box)
    ensures GoodIds(Listing(items, folder)) && |Listing(items, folder)| <= |items|
  {
    SnapshotDistinct(items, s);
    FilteredDistinct(items, folder);
    SortedDistinct(Filtered(items, folder));
    var view := Listing(items, folder);
    forall i | 0 <= i < |view| ensures view[i].name.Some? && view[i].name.value != "" {
      ListedIsCached(items, s, folder, view[i]);
    }
  }

  lemma SameShownSameListing(a: seq<Item>, s: Shelf, b: seq<Item>, t: Shelf, folder: Folder)
    requires Snapshot(a, s) && Snapshot(b, t) && SameShown(s, t)
    ensures Listing(a, folder) == Listing(b, folder)
  {
    assert forall p | p in s.world.box.cache :: ItemAt(s, p) == ItemAt(t, p);
    assert Items(s) == Items(t);
    ListingIgnoresOrder(a, b, folder);
  }

  // ----- loading page after page --------------------------------------------------------------------------

  /** The stamp of a reply: modem generation, messaging epoch, revision. */
  function StampOf(generation: nat, s: Shelf): (nat, nat, nat) {
    (generation, s.world.box.epoch, s.world.box.revision)
  }

  /** Page k, if it comes from the modem of that generation, is cut from a snapshot taken at
      moment at(k) of the run, which is not before that of an earlier page. */
  ghost predicate Serving(
      call: (nat, string) -> Answer, generation: nat, folder: Folder,
      shelves: seq<Shelf>, at: nat -> nat, snapshots: nat -> seq<Item>)
  {
    && (forall k :: at(0) <= at(k) < |shelves| && Snapshot(snapshots(k), shelves[at(k)]))
    && (forall k, cursor :: call(k, cursor).Received? && call(k, cursor).stamp.0 == generation ==>
          && Serves(shelves[at(k)].world.box)
          && call(k, cursor) == Received(StampOf(generation, shelves[at(k)]),
                                         PageOf(Listing(snapshots(k), folder), SMS_LIMIT, cursor)))
  }

  lemma SameStampSamePage(
      call: (nat, string) -> Answer, generation: nat, folder: Folder, shelves: seq<Shelf>, events: seq<Event>,
      brought: seq<Path -> Details>, at: nat -> nat, snapshots: nat -> seq<Item>, k: nat, cursor: string)
    requires Run(shelves, events, brought) && Unswapped(shelves, events, brought, 0, |events|)
    requires shelves[|events|].world.box.revision < MAX_UINT64
    requires Serving(call, generation, folder, shelves, at, snapshots)
    requires call(k, cursor).Received? && call(k, cursor).stamp == StampOf(generation, shelves[at(0)])
    ensures call(k, cursor).page == PageOf(Listing(snapshots(0), folder), SMS_LIMIT, cursor)
  {
    SameRevisionSameView(shelves, events, brought, at(k), |events|);
    SameRevisionSameView(shelves, events, brought, at(0), at(k));
    SameShownSameListing(snapshots(0), shelves[at(0)], snapshots(k), shelves[at(k)], folder);
  }

  /** A strict load that ends without error and without more pages holds exactly the folder as
      it was when the first page was cut, whatever signals, lists, property changes, admissions
      and epoch changes came between its pages. */
  lemma StrictLoadSeesFolder(
      call: (nat, string) -> Answer, generation: nat, folder: Folder, shelves: seq<Shelf>, events: seq<Event>,
      brought: seq<Path -> Details>, at: nat -> nat, snapshots: nat -> seq<Item>, pageCount: nat)
    requires Run(shelves, events, brought) && Unswapped(shelves, events, brought, 0, |events|)
    requires shelves[|events|].world.box.revision < MAX_UINT64
    requires Serving(call, generation, folder, shelves, at, snapshots)
    requires call(0, "").Received? ==> call(0, "").stamp.0 == generation
    ensures var result := LoadFrom(call, pageCount, true, 0, "", None, []);
            result.Loaded? && !result.hasMore ==> result.messages == Listing(snapshots(0), folder)
  {
    var view, stamp := Listing(snapshots(0), folder), StampOf(generation, shelves[at(0)]);
    forall k, cursor | call(k, cursor).Received? && call(k, cursor).stamp == stamp
      ensures call(k, cursor).page == PageOf(view, SMS_LIMIT, cursor)
    {
      SameStampSamePage(call, generation, folder, shelves, events, brought, at, snapshots, k, cursor);
    }
    RunIds(shelves, events, brought, at(0));
    ListingIds(snapshots(0), shelves[at(0)], folder);
    LoadSeesView(call, view, stamp, pageCount, true, 0, "", None, []);
  }

  lemma {:induction false} ImageSize(paths: set<Path>, s: Shelf)
    requires paths <= s.world.box.cache.Keys
    ensures |set p | p in paths :: ItemAt(s, p)| <= |paths|
  {
    var image := set p | p in paths :: ItemAt(s, p);
    if paths != {} {
      var q :| q in paths;
      var smaller := set p | p in paths - {q} :: ItemAt(s, p);
      assert image == smaller + {ItemAt(s, q)};
      ImageSize(paths - {q}, s);
    }
  }

  lemma SnapshotBounded(items: seq<Item>, s: Shelf)
    requires Snapshot(items, s) && BoxOk(s.world.box)
    ensures |items| <= MAX_SMS_CACHE
  {
    ImageSize(s.world.box.cache.Keys, s);
    assert Items(s) == set p | p in s.world.box.cache.Keys :: ItemAt(s, p);
    assert |items| == |multiset(items)| == |Items(s)|;
  }

  /** Eleven pages of 100 load any folder of any reachable cache that stays as it is. */
  lemma EveryFolderLoads(
      call: (nat, string) -> Answer, stamp: (nat, nat, nat), folder: Folder, shelves: seq<Shelf>, events: seq<Event>,
      brought: seq<Path -> Details>, k: nat, items: seq<Item>)
    requires Run(shelves, events, brought) && k < |shelves| && Snapshot(items, shelves[k])
    requires forall n, cursor :: call(n, cursor) == Received(stamp, PageOf(Listing(items, folder), SMS_LIMIT, cursor))
    ensures LoadFrom(call, MAX_SMS_PAGES, true, 0, "", None, []) == Loaded(Listing(items, folder), "", false, false)
  {
    RunIds(shelves, events, brought, k);
    ListingIds(items, shelves[k], folder);
    SnapshotBounded(items, shelves[k]);
    ElevenPagesSuffice(call, Listing(items, folder), stamp);
  }

  // ----- two inputs ------------------------------------------------------------------------------------------

  const MESSAGE: Path := "/m"
  const PROXY: nat := 1
  const FIRST: Id := "sms-1"
  const EMPTY: Mailbox := Mailbox(true, None, 0, map[], {}, {}, false, false, false, Absent, 0)
  const OPENED: Mailbox := EMPTY.(messaging := Some(PROXY), epoch := 1, pending := true, status := Loading, revision := 1)
  const STOCKED: Mailbox := OPENED.(cache := map[MESSAGE := FIRST], pending := false, status := Ready, revision := 2)

  lemma OneListed()
    ensures CacheFrom(OPENED, [Stamp(None, Some(MESSAGE))], STOCKED.cache)
    ensures Installed(OPENED, [Stamp(None, Some(MESSAGE))], STOCKED.cache) == STOCKED
  {
    var m := Stamp(None, Some(MESSAGE));
    assert ValidMessage(m);
    assert Sort([m]) == [m];
    assert Eligible([m], {}) == [m];
    assert [m][0] == m;
    forall p ensures p in PathsOf([m]) <==> p == MESSAGE {
      if p in PathsOf([m]) {
        var k :| 0 <= k < |[m]| && ValidMessage([m][k]) && [m][k].name.value == p;
      }
    }
    assert STOCKED.cache.Keys == {MESSAGE};
    assert STOCKED.cache.Values == {FIRST};
  }

  const OPEN_WORLD: World := World(OPENED, map[0 := Flight(1, PROXY, 1)], 1, 1, 1, 0)
  const STOCKED_WORLD: World := World(STOCKED, map[], 1, 2, 1, 1)

  lemma Opens()
    ensures Next(Start(), Reconcile(Some(PROXY), false), OPEN_WORLD)
  {
  }

  lemma Stocks()
    ensures Next(OPEN_WORLD, Replies(0, Listed([Stamp(None, Some(MESSAGE))]), false), STOCKED_WORLD)
  {
    OneListed();
  }

  lemma FirstShelves(was: Path -> Details)
    ensures Follows(Shelf(Start(), was), Reconcile(Some(PROXY), false), was, Shelf(OPEN_WORLD, was))
    ensures Follows(Shelf(OPEN_WORLD, was), Replies(0, Listed([Stamp(None, Some(MESSAGE))]), false), was, Shelf(STOCKED_WORLD, was))
  {
    Opens();
    Stocks();
  }

  lemma LastShelf(was: Path -> Details, now: Path -> Details)
    ensures Follows(Shelf(STOCKED_WORLD, was), Admits(MESSAGE, None, None), now, Shelf(Later(STOCKED_WORLD), now))
    ensures Unmoved(Shelf(STOCKED_WORLD, was), Shelf(Later(STOCKED_WORLD), now)) && Serves(STOCKED_WORLD.box)
    ensures MESSAGE in STOCKED_WORLD.box.cache
  {
    assert IsObjectPath(MESSAGE);
  }

  /** Admission without a reserved ID can change what a serving cache shows under one revision. */
  lemma ViewCanChange(before: Details, after: Details)
      returns (shelves: seq<Shelf>, events: seq<Event>, brought: seq<Path -> Details>)
    requires before != after
    ensures Run(shelves, events, brought) && |events| == 3
    ensures Unmoved(shelves[2], shelves[3]) && Serves(shelves[2].world.box) && !SameShown(shelves[2], shelves[3])
  {
    var was: Path -> Details := p => before;
    var now: Path -> Details := p => after;
    events := [Reconcile(Some(PROXY), false), Replies(0, Listed([Stamp(None, Some(MESSAGE))]), false), Admits(MESSAGE, None, None)];
    shelves := [Shelf(Start(), was), Shelf(OPEN_WORLD, was), Shelf(STOCKED_WORLD, was), Shelf(Later(STOCKED_WORLD), now)];
    brought := [was, was, now];
    FirstShelves(was);
    LastShelf(was, now);
  }

  const BURIED: Mailbox := OPENED.(tombstones := {MESSAGE}, dirty := true)
  const BURIED_WORLD: World := OPEN_WORLD.(box := BURIED, clock := 2, lastRequest := 2)
  const WAITING_WORLD: World := BURIED_WORLD.(box := BURIED.(reserved := {FIRST}), clock := 3)
  const REVIVED_WORLD: World := BURIED_WORLD.(box := BURIED.(cache := map[MESSAGE := FIRST], revision := 2), clock := 4)

  lemma Buries()
    ensures Next(OPEN_WORLD, Deleted(Some(MESSAGE)), BURIED_WORLD)
  {
    assert IsObjectPath(MESSAGE);
  }

  lemma Revives()
    ensures Next(WAITING_WORLD, Admits(MESSAGE, Some(FIRST), None), REVIVED_WORLD)
  {
    assert IsObjectPath(MESSAGE);
    assert WAITING_WORLD.box.reserved - {FIRST} == {};
  }

  ghost predicate Ends(states: seq<World>, events: seq<Event>, w: World) {
    History(states, events) && states[|events|] == w
  }

  lemma Extend(states: seq<World>, events: seq<Event>, w: World, e: Event, v: World)
    requires Ends(states, events, w) && Enabled(w, e) && Next(w, e, v)
    ensures Ends(states + [v], events + [e], v)
  {
    var longer, more := states + [v], events + [e];
    forall k | 0 <= k < |more| ensures Enabled(longer[k], more[k]) && Next(longer[k], more[k], longer[k + 1]) {
      if k < |events| { assert longer[k] == states[k] && more[k] == events[k]; }
    }
  }

  lemma RevivedTraits()
    ensures MESSAGE in REVIVED_WORLD.box.cache && MESSAGE in REVIVED_WORLD.box.tombstones
    ensures Next(BURIED_WORLD, Reserves(Some(FIRST)), WAITING_WORLD) && Enabled(BURIED_WORLD, Reserves(Some(FIRST)))
  {
  }

  /** A message deleted before any list came back, then created again at the same path: cached
      and tombstoned at once. */
  lemma TombstonedCanBeCached() returns (states: seq<World>, events: seq<Event>)
    ensures History(states, events)
    ensures var box := states[|events|].box; MESSAGE in box.cache && MESSAGE in box.tombstones
  {
    Opens();
    Buries();
    RevivedTraits();
    Revives();
    states, events := [Start()], [];
    Extend(states, events, Start(), Reconcile(Some(PROXY), false), OPEN_WORLD);
    states, events := states + [OPEN_WORLD], events + [Reconcile(Some(PROXY), false)];
    Extend(states, events, OPEN_WORLD, Deleted(Some(MESSAGE)), BURIED_WORLD);
    states, events := states + [BURIED_WORLD], events + [Deleted(Some(MESSAGE))];
    Extend(states, events, BURIED_WORLD, Reserves(Some(FIRST)), WAITING_WORLD);
    states, events := states + [WAITING_WORLD], events + [Reserves(Some(FIRST))];
    Extend(states, events, WAITING_WORLD, Admits(MESSAGE, Some(FIRST), None), REVIVED_WORLD);
    states, events := states + [REVIVED_WORLD], events + [Admits(MESSAGE, Some(FIRST), None)];
  }
}
