/** Whole histories of one mailbox: every interleaving of signals, refresh requests, list
    replies (current and stale), epoch changes, ID reservations and removal. */
module SmsCacheRuns {
  import opened Common
  import opened Stamps
  import opened SmsCache

  /** A list call that has not been answered yet. */
  datatype Flight = Flight(epoch: nat, proxy: nat, started: nat)

  /** `lastRequest` is when a refresh was last asked for, `lastDone` when the last list that
      counted had been sent. */
  datatype World = World(
    box: Mailbox, flights: map<nat, Flight>, nextQuery: nat, clock: nat, lastRequest: nat, lastDone: nat)

  datatype Event =
    | Added(path: Option<Path>)
    | Deleted(path: Option<Path>)
    | Refresh
    | PropertyChange(changed: Path)
    | Reconcile(proxy: Option<nat>, force: bool)
    | Removal
    | Reserves(drawn: Option<Id>)
    | Releases(id: Id)
    | Admits(admitted: Path, reservedId: Option<Id>, drawn: Option<Id>)
    | Replies(query: nat, reply: Reply, drawFails: bool)

  function Dispatch(w: World, box: Mailbox): World {
    if !Dispatches(box) then w.(box := Query(box))
    else w.(box := Query(box), nextQuery := w.nextQuery + 1,
            flights := w.flights[w.nextQuery := Flight(box.epoch, box.messaging.value, w.clock)])
  }

  function Request(w: World, box: Mailbox): World {
    var v := Dispatch(w, box);
    if box.live && box.messaging.Some? then v.(lastRequest := w.clock) else v
  }

  ghost predicate Enabled(w: World, e: Event) {
    match e
    case Reconcile(_, _) => w.box.live
    case Reserves(drawn) => drawn.Some? ==> Free(w.box, drawn.value)
    case Admits(_, _, drawn) => drawn.Some? ==> Free(w.box, drawn.value)
    case Replies(query, _, _) => query in w.flights
    case _ => true
  }

  /** A reply that counts: the list it answers is over, and a dirty mailbox asks again. */
  function Landed(w: World, query: nat, box: Mailbox): World
    requires query in w.flights
  {
    var f := w.flights[query];
    var v := w.(box := box, flights := w.flights - {query}, lastDone := f.started);
    if w.box.dirty then
      v.(flights := v.flights[w.nextQuery := Flight(f.epoch, f.proxy, w.clock)], nextQuery := w.nextQuery + 1)
    else v
  }

  function Later(w: World): World {
    w.(clock := w.clock + 1)
  }

  ghost predicate Next(w: World, e: Event, v: World)
    requires Enabled(w, e)
  {
    match e
    case Added(path) => v == if w.box.live then Request(Later(w), AddedBox(w.box, path)) else Later(w)
    case Deleted(path) =>
      v == if DeletedApplies(w.box, path) then Request(Later(w), DeletedBox(w.box, path)) else Later(w)
    case Refresh => v == Request(Later(w), w.box)
    case PropertyChange(path) => v == if w.box.live && path in w.box.cache then Later(w).(box := Bump(w.box)) else Later(w)
    case Reconcile(proxy, force) =>
      v == if !force && proxy == w.box.messaging then Later(w) else Request(Later(w), EpochBox(w.box, proxy))
    case Removal => v == Later(w).(box := Remove(w.box))
    case Reserves(drawn) => v == Later(w).(box := Reserve(w.box, drawn))
    case Releases(id) => v == Later(w).(box := ReleaseId(w.box, id))
    case Admits(path, reservedId, drawn) => v == Later(w).(box := Admit(w.box, path, reservedId, drawn))
    case Replies(query, reply, drawFails) =>
      var f := w.flights[query];
      && ListStep(w.box, f.epoch, f.proxy, reply, drawFails, v.box)
      && (if Current(w.box, f.epoch, f.proxy) then v == Landed(Later(w), query, v.box)
          else v == Later(w).(flights := w.flights - {query}))
  }

  function Start(): World {
    World(Mailbox(true, None, 0, map[], {}, {}, false, false, false, Absent, 0), map[], 0, 0, 0, 0)
  }

  ghost predicate History(states: seq<World>, events: seq<Event>) {
    && |states| == |events| + 1 && states[0] == Start()
    && forall k | 0 <= k < |events| :: Enabled(states[k], events[k]) && Next(states[k], events[k], states[k + 1])
  }

  // ----- no refresh is lost ------------------------------------------------------------------------

  ghost predicate FlightsOk(w: World) {
    && (forall q | q in w.flights :: q < w.nextQuery && w.flights[q].epoch <= w.box.epoch)
    && (forall a, b | a in w.flights && b in w.flights && a != b :: w.flights[a].epoch != w.flights[b].epoch)
    && (forall q | q in w.flights && w.flights[q].epoch == w.box.epoch && w.box.messaging.Some? ::
          w.box.pending && w.box.messaging == Some(w.flights[q].proxy))
  }

  /** The list call in flight for the current epoch. */
  ghost predicate InFlight(w: World, q: nat) {
    q in w.flights && w.flights[q].epoch == w.box.epoch
  }

  ghost predicate Coalesced(w: World) {
    && (w.box.dirty ==> w.box.pending)
    && (w.box.messaging.None? ==> !w.box.pending)
    && w.lastRequest <= w.clock
    && (w.box.live && w.box.pending ==> exists q :: InFlight(w, q))
    && (w.box.live && w.box.pending && !w.box.dirty ==> forall q | InFlight(w, q) :: w.lastRequest <= w.flights[q].started)
    && (w.box.live && w.box.messaging.Some? && !w.box.pending ==> w.lastRequest <= w.lastDone)
  }

  ghost predicate QueriesOk(w: World) {
    FlightsOk(w) && Coalesced(w)
  }

  /** Same epoch, proxy and flags. */
  ghost predicate SameCall(s: Mailbox, t: Mailbox) {
    && t.messaging == s.messaging && t.epoch == s.epoch && t.pending == s.pending && t.dirty == s.dirty
    && (t.live ==> s.live)
  }

  lemma QuietKeepsQueries(w: World, v: World)
    requires QueriesOk(w) && SameCall(w.box, v.box) && v == Later(w).(box := v.box)
    ensures QueriesOk(v)
  {
    if w.box.live && w.box.pending {
      var q :| InFlight(w, q);
      assert InFlight(v, q);
    }
    forall q | InFlight(v, q) ensures InFlight(w, q) {}
  }

  lemma RequestKeepsQueries(w: World, box: Mailbox)
    requires QueriesOk(w) && SameCall(w.box, box) && box.live
    ensures QueriesOk(Request(Later(w), box))
  {
    var v := Request(Later(w), box);
    if Dispatches(box) {
      assert InFlight(v, w.nextQuery);
      forall q | q in w.flights ensures w.flights[q].epoch < box.epoch {}
    } else {
      if w.box.pending {
        var q :| InFlight(w, q);
        assert InFlight(v, q);
      }
    }
  }

  lemma EpochKeepsQueries(w: World, proxy: Option<nat>)
    requires QueriesOk(w) && w.box.live
    ensures QueriesOk(Request(Later(w), EpochBox(w.box, proxy)))
  {
    var box := EpochBox(w.box, proxy);
    var v := Request(Later(w), box);
    if Dispatches(box) {
      assert InFlight(v, w.nextQuery);
      assert forall q | q in w.flights :: w.flights[q].epoch < box.epoch;
    }
  }

  lemma LandingFlags(w: World, query: nat, reply: Reply, drawFails: bool, t: Mailbox)
    requires query in w.flights && Current(w.box, w.flights[query].epoch, w.flights[query].proxy)
    requires ListStep(w.box, w.flights[query].epoch, w.flights[query].proxy, reply, drawFails, t)
    ensures t.live && t.messaging == w.box.messaging && t.epoch == w.box.epoch
    ensures t.pending == w.box.dirty && !t.dirty
  {
  }

  lemma LandingKeepsQueries(w: World, query: nat, t: Mailbox)
    requires QueriesOk(w) && query in w.flights && Current(w.box, w.flights[query].epoch, w.flights[query].proxy)
    requires t.live && t.messaging == w.box.messaging && t.epoch == w.box.epoch && t.pending == w.box.dirty && !t.dirty
    ensures QueriesOk(Landed(Later(w), query, t))
  {
    var v := Landed(Later(w), query, t);
    assert InFlight(w, query);
    assert forall q | q in w.flights && q != query :: w.flights[q].epoch < w.box.epoch;
    if w.box.dirty { assert InFlight(v, w.nextQuery); }
  }

  lemma StaleKeepsQueries(w: World, query: nat)
    requires QueriesOk(w) && query in w.flights && !Current(w.box, w.flights[query].epoch, w.flights[query].proxy)
    ensures QueriesOk(Later(w).(flights := w.flights - {query}))
  {
    var v := Later(w).(flights := w.flights - {query});
    if w.box.live && w.box.pending {
      var q :| InFlight(w, q);
      assert q != query;
      assert InFlight(v, q);
    }
    forall q | InFlight(v, q) ensures InFlight(w, q) {}
  }

  lemma SignalKeepsQueries(w: World, e: Event, v: World)
    requires QueriesOk(w) && Enabled(w, e) && Next(w, e, v) && (e.Added? || e.Deleted? || e.Refresh?)
    ensures QueriesOk(v)
  {
    if !w.box.live || (e.Deleted? && !DeletedApplies(w.box, e.path)) {
      QuietKeepsQueries(w, v);
    } else if e.Added? {
      RequestKeepsQueries(w, AddedBox(w.box, e.path));
    } else if e.Deleted? {
      RequestKeepsQueries(w, DeletedBox(w.box, e.path));
    } else {
      RequestKeepsQueries(w, w.box);
    }
  }

  lemma ReplyKeepsQueries(w: World, query: nat, reply: Reply, drawFails: bool, v: World)
    requires QueriesOk(w) && Enabled(w, Replies(query, reply, drawFails)) && Next(w, Replies(query, reply, drawFails), v)
    ensures QueriesOk(v)
  {
    if Current(w.box, w.flights[query].epoch, w.flights[query].proxy) {
      LandingFlags(w, query, reply, drawFails, v.box);
      LandingKeepsQueries(w, query, v.box);
    } else {
      StaleKeepsQueries(w, query);
    }
  }

  lemma ReconcileKeepsQueries(w: World, proxy: Option<nat>, force: bool, v: World)
    requires QueriesOk(w) && Enabled(w, Reconcile(proxy, force)) && Next(w, Reconcile(proxy, force), v)
    ensures QueriesOk(v)
  {
    if !force && proxy == w.box.messaging { QuietKeepsQueries(w, v); } else { EpochKeepsQueries(w, proxy); }
  }

  lemma AdmitKeepsCall(s: Mailbox, path: Path, reservedId: Option<Id>, drawn: Option<Id>)
    ensures SameCall(s, Admit(s, path, reservedId, drawn))
  {
  }

  lemma LocalKeepsQueries(w: World, e: Event, v: World)
    requires QueriesOk(w) && Enabled(w, e) && Next(w, e, v)
    requires e.PropertyChange? || e.Removal? || e.Reserves? || e.Releases? || e.Admits?
    ensures QueriesOk(v)
  {
    if e.Admits? { AdmitKeepsCall(w.box, e.admitted, e.reservedId, e.drawn); }
    QuietKeepsQueries(w, v);
  }

  lemma StepKeepsQueries(w: World, e: Event, v: World)
    requires QueriesOk(w) && Enabled(w, e) && Next(w, e, v)
    ensures QueriesOk(v)
  {
    if e.Added? || e.Deleted? || e.Refresh? {
      SignalKeepsQueries(w, e, v);
    } else if e.Reconcile? {
      ReconcileKeepsQueries(w, e.proxy, e.force, v);
    } else if e.Replies? {
      ReplyKeepsQueries(w, e.query, e.reply, e.drawFails, v);
    } else {
      LocalKeepsQueries(w, e, v);
    }
  }

  lemma {:induction false} HistoryKeepsQueries(states: seq<World>, events: seq<Event>, k: nat)
    requires History(states, events) && k < |states|
    ensures QueriesOk(states[k])
  {
    if k > 0 {
      HistoryKeepsQueries(states, events, k - 1);
      StepKeepsQueries(states[k - 1], events[k - 1], states[k]);
    }
  }

  /** In every reachable state: one list call in flight at most per messaging epoch, dirty only
      while one is pending, and when nothing is pending on a live modem the last list that
      counted was sent no earlier than the last refresh request. */
  lemma NoRefreshIsLost(states: seq<World>, events: seq<Event>, k: nat)
    requires History(states, events) && k < |states|
    ensures var w := states[k];
            && (forall a, b | a in w.flights && b in w.flights && w.flights[a].epoch == w.flights[b].epoch :: a == b)
            && (w.box.dirty ==> w.box.pending)
            && (w.box.live && w.box.pending ==> exists q :: InFlight(w, q))
            && (w.box.live && w.box.messaging.Some? && !w.box.pending ==> w.lastRequest <= w.lastDone)
  {
    HistoryKeepsQueries(states, events, k);
  }

  // ----- IDs and bounds ----------------------------------------------------------------------------------

  /** Cached IDs distinct and not reserved; cache and tombstones within their bounds. */
  ghost predicate PartsOk(cache: map<Path, Id>, reserved: set<Id>, tombstones: set<Path>) {
    && Injective(cache) && cache.Values !! reserved
    && |cache| <= MAX_SMS_CACHE && |tombstones| <= MAX_SMS_CACHE
  }

  ghost predicate BoxOk(s: Mailbox) {
    PartsOk(s.cache, s.reserved, s.tombstones)
  }

  lemma EmptyIsOk(reserved: set<Id>, tombstones: set<Path>)
    requires |tombstones| <= MAX_SMS_CACHE
    ensures PartsOk(map[], reserved, tombstones)
  {
    var none: map<Path, Id> := map[];
    assert none.Values == {};
  }

  lemma FewerTombstones(cache: map<Path, Id>, reserved: set<Id>, tombstones: set<Path>, fewer: set<Path>)
    requires PartsOk(cache, reserved, tombstones) && fewer <= tombstones
    ensures PartsOk(cache, reserved, fewer)
  {
    SubsetSize(fewer, tombstones);
  }

  lemma OneMoreTombstone(cache: map<Path, Id>, reserved: set<Id>, tombstones: set<Path>, p: Path)
    requires PartsOk(cache, reserved, tombstones) && |tombstones| < MAX_SMS_CACHE
    ensures PartsOk(cache, reserved, tombstones + {p})
  {
  }

  lemma OneFewer(cache: map<Path, Id>, reserved: set<Id>, tombstones: set<Path>, p: Path)
    requires PartsOk(cache, reserved, tombstones)
    ensures PartsOk(cache - {p}, reserved, tombstones)
  {
    var smaller := cache - {p};
    forall v | v in smaller.Values ensures v in cache.Values {
      var q :| q in smaller && smaller[q] == v;
      assert cache[q] == v;
    }
    SubsetSize(smaller.Keys, cache.Keys);
    assert |smaller| == |smaller.Keys| && |cache| == |cache.Keys|;
  }

  /** A path gets an ID that no path has; if it was reserved, it is released. */
  lemma OnePut(cache: map<Path, Id>, reserved: set<Id>, tombstones: set<Path>, path: Path, id: Id, left: set<Id>)
    requires PartsOk(cache, reserved, tombstones) && id !in cache.Values && (path in cache || |cache| < MAX_SMS_CACHE)
    requires left <= reserved && id !in left
    ensures PartsOk(cache[path := id], left, tombstones)
  {
    var longer := cache[path := id];
    forall v | v in longer.Values ensures v in cache.Values || v == id {
      var p :| p in longer && longer[p] == v;
      if p != path { assert cache[p] == v; }
    }
    forall p | p in cache ensures cache[p] in cache.Values {}
    assert longer.Keys == cache.Keys + {path};
    assert |longer| == |longer.Keys| && |cache| == |cache.Keys|;
  }

  lemma FewerReserved(cache: map<Path, Id>, reserved: set<Id>, tombstones: set<Path>, left: set<Id>)
    requires PartsOk(cache, reserved, tombstones) && left <= reserved
    ensures PartsOk(cache, left, tombstones)
  {
  }

  lemma InstalledKeepsBox(s: Mailbox, messages: seq<Stamp>, cache: map<Path, Id>)
    requires BoxOk(s) && CacheFrom(s, messages, cache)
    ensures BoxOk(Installed(s, messages, cache))
  {
    var kept := Kept(Eligible(Sort(messages), s.tombstones));
    PathsBounded(kept);
    assert |cache| == |cache.Keys| <= MAX_SMS_CACHE;
    assert PartsOk(cache, s.reserved, s.tombstones);
    FewerTombstones(cache, s.reserved, s.tombstones, s.tombstones * PathsOf(messages));
  }

  lemma EmptiedKeepsBox(s: Mailbox, status: Status)
    requires BoxOk(s)
    ensures BoxOk(Emptied(s, status))
  {
    EmptyIsOk(s.reserved, s.tombstones);
  }

  lemma ListKeepsBox(s: Mailbox, epoch: nat, proxy: nat, reply: Reply, drawFails: bool, t: Mailbox)
    requires BoxOk(s) && ListStep(s, epoch, proxy, reply, drawFails, t)
    ensures BoxOk(t)
  {
    if Current(s, epoch, proxy) {
      if reply.Failed? {
        EmptiedKeepsBox(s, FailedStatus(reply.cancelled));
      } else if drawFails {
        EmptiedKeepsBox(s, Unavailable);
      } else {
        InstalledKeepsBox(s, reply.messages, t.cache);
      }
    }
  }

  lemma ReservedKeepsBox(s: Mailbox, path: Path, id: Id, drawn: Option<Id>)
    requires BoxOk(s) && id in s.reserved
    ensures BoxOk(Admit(s, path, Some(id), drawn))
  {
    var left := s.reserved - {id};
    FewerReserved(s.cache, s.reserved, s.tombstones, left);
    if path in s.cache || |s.cache| < MAX_SMS_CACHE { OnePut(s.cache, s.reserved, s.tombstones, path, id, left); }
  }

  lemma AdmitKeepsBox(s: Mailbox, path: Path, reservedId: Option<Id>, drawn: Option<Id>)
    requires BoxOk(s) && (drawn.Some? ==> Free(s, drawn.value))
    ensures BoxOk(Admit(s, path, reservedId, drawn))
  {
    if reservedId.Some? {
      if reservedId.value in s.reserved { ReservedKeepsBox(s, path, reservedId.value, drawn); }
    } else if drawn.None? {
      EmptyIsOk(s.reserved, s.tombstones);
    } else if path !in s.cache && |s.cache| < MAX_SMS_CACHE {
      OnePut(s.cache, s.reserved, s.tombstones, path, drawn.value, s.reserved);
    }
  }

  lemma MarkKeepsParts(s: Mailbox, path: Path)
    requires BoxOk(s)
    ensures PartsOk(s.cache, s.reserved, Marked(s, path).tombstones)
  {
    if |s.tombstones| < MAX_SMS_CACHE { OneMoreTombstone(s.cache, s.reserved, s.tombstones, path); }
  }

  lemma DeletedParts(s: Mailbox, path: Path)
    requires DeletedApplies(s, Some(path))
    ensures var t := DeletedBox(s, Some(path));
            && t.reserved == s.reserved && t.tombstones == Marked(s, path).tombstones
            && t.cache == if path in s.cache then s.cache - {path} else s.cache
  {
    var m := Marked(s, path);
    assert m.cache == s.cache && m.reserved == s.reserved;
    if path in s.cache {
      var d := m.(cache := s.cache - {path});
      assert DeletedBox(s, Some(path)) == Bump(d);
    } else {
      assert DeletedBox(s, Some(path)) == m;
    }
  }

  lemma DeletedKeepsBox(s: Mailbox, path: Option<Path>)
    requires BoxOk(s) && DeletedApplies(s, path)
    ensures BoxOk(DeletedBox(s, path))
  {
    DeletedParts(s, path.value);
    MarkKeepsParts(s, path.value);
    OneFewer(s.cache, s.reserved, Marked(s, path.value).tombstones, path.value);
  }

  lemma AddedKeepsBox(s: Mailbox, path: Option<Path>)
    requires BoxOk(s)
    ensures BoxOk(AddedBox(s, path))
  {
    FewerTombstones(s.cache, s.reserved, s.tombstones, Unmarked(s, path).tombstones);
  }

  lemma EpochKeepsBox(s: Mailbox, proxy: Option<nat>)
    ensures BoxOk(EpochBox(s, proxy))
  {
    EmptyIsOk({}, {});
  }

  lemma QueryKeepsParts(s: Mailbox)
    ensures Query(s).cache == s.cache && Query(s).reserved == s.reserved && Query(s).tombstones == s.tombstones
  {
  }

  lemma SignalKeepsBox(w: World, e: Event, v: World)
    requires BoxOk(w.box) && Enabled(w, e) && Next(w, e, v) && (e.Added? || e.Deleted? || e.Refresh? || e.Reconcile?)
    ensures BoxOk(v.box)
  {
    match e
    case Added(path) =>
      AddedKeepsBox(w.box, path);
      QueryKeepsParts(AddedBox(w.box, path));
    case Deleted(path) =>
      if DeletedApplies(w.box, path) {
        DeletedKeepsBox(w.box, path);
        QueryKeepsParts(DeletedBox(w.box, path));
      }
    case Refresh => QueryKeepsParts(w.box);
    case Reconcile(proxy, _) =>
      EpochKeepsBox(w.box, proxy);
      QueryKeepsParts(EpochBox(w.box, proxy));
  }

  lemma LocalKeepsBox(w: World, e: Event, v: World)
    requires BoxOk(w.box) && Enabled(w, e) && Next(w, e, v)
    requires e.PropertyChange? || e.Removal? || e.Reserves? || e.Releases? || e.Admits?
    ensures BoxOk(v.box)
  {
    match e
    case Removal => EmptyIsOk(w.box.reserved, w.box.tombstones);
    case Releases(id) => FewerReserved(w.box.cache, w.box.reserved, w.box.tombstones, w.box.reserved - {id});
    case Admits(path, reservedId, drawn) => AdmitKeepsBox(w.box, path, reservedId, drawn);
    case _ =>
  }

  lemma StepKeepsBox(w: World, e: Event, v: World)
    requires BoxOk(w.box) && Enabled(w, e) && Next(w, e, v)
    ensures BoxOk(v.box)
  {
    if e.Replies? {
      ListKeepsBox(w.box, w.flights[e.query].epoch, w.flights[e.query].proxy, e.reply, e.drawFails, v.box);
    } else if e.Added? || e.Deleted? || e.Refresh? || e.Reconcile? {
      SignalKeepsBox(w, e, v);
    } else {
      LocalKeepsBox(w, e, v);
    }
  }

  lemma BoxAt(states: seq<World>, events: seq<Event>, k: nat)
    requires History(states, events) && k < |events| && BoxOk(states[k].box)
    ensures BoxOk(states[k + 1].box)
  {
    StepKeepsBox(states[k], events[k], states[k + 1]);
  }

  /** In every reachable state cached IDs are pairwise distinct, disjoint from reserved IDs,
      and at most 1,024 paths are cached or tombstoned. */
  lemma {:induction false} IdsStayDistinct(states: seq<World>, events: seq<Event>, k: nat)
    requires History(states, events) && k < |states|
    ensures BoxOk(states[k].box) && IdsOk(states[k].box)
  {
    if k > 0 {
      IdsStayDistinct(states, events, k - 1);
      BoxAt(states, events, k - 1);
    } else {
      EmptyIsOk({}, {});
    }
  }

  // ----- equal revisions, equal caches ---------------------------------------------------------------------

  /** `list_sms` answers from the cache only in these states. */
  predicate Serves(s: Mailbox) {
    s.live && s.messaging.Some? && IsReady(s.status)
  }

  /** The revision rises, or a cache that serves served before and is what it was. */
  ghost predicate Forward(s: Mailbox, t: Mailbox) {
    && s.revision <= t.revision
    && (t.revision == s.revision < MAX_UINT64 && Serves(t) ==> Serves(s) && t.cache == s.cache)
  }

  lemma SignalsForward(s: Mailbox, path: Option<Path>)
    ensures Forward(s, Query(AddedBox(s, path))) && Forward(s, Query(s)) && Forward(s, Bump(s))
  {
  }

  lemma DeletedForward(s: Mailbox, path: Option<Path>)
    requires DeletedApplies(s, path)
    ensures Forward(s, Query(DeletedBox(s, path)))
  {
    DeletedParts(s, path.value);
    var t := DeletedBox(s, path);
    assert t.live == s.live && t.messaging == s.messaging && t.status == s.status && s.revision <= t.revision;
    assert s.revision < MAX_UINT64 && path.value in s.cache ==> t.revision == s.revision + 1;
  }

  lemma EpochForward(s: Mailbox, proxy: Option<nat>)
    ensures Forward(s, Query(EpochBox(s, proxy)))
  {
  }

  lemma AdmitForward(s: Mailbox, path: Path, reservedId: Option<Id>, drawn: Option<Id>)
    ensures Forward(s, Admit(s, path, reservedId, drawn))
  {
  }

  lemma ListForward(s: Mailbox, epoch: nat, proxy: nat, reply: Reply, drawFails: bool, t: Mailbox)
    requires ListStep(s, epoch, proxy, reply, drawFails, t)
    ensures Forward(s, t)
  {
  }

  /** A mailbox that does not serve cannot start to without a new revision, and a cache that
      serves does not change without one. */
  lemma StepForward(w: World, e: Event, v: World)
    requires Enabled(w, e) && Next(w, e, v)
    ensures Forward(w.box, v.box)
  {
    match e
    case Added(path) => SignalsForward(w.box, path);
    case Deleted(path) => if DeletedApplies(w.box, path) { DeletedForward(w.box, path); }
    case Refresh => SignalsForward(w.box, None);
    case PropertyChange(_) => SignalsForward(w.box, None);
    case Reconcile(proxy, _) => EpochForward(w.box, proxy);
    case Admits(path, reservedId, drawn) => AdmitForward(w.box, path, reservedId, drawn);
    case Replies(query, reply, drawFails) =>
      ListForward(w.box, w.flights[query].epoch, w.flights[query].proxy, reply, drawFails, v.box);
    case _ =>
  }

  lemma ForwardAt(states: seq<World>, events: seq<Event>, k: nat)
    requires History(states, events) && k < |events|
    ensures Forward(states[k].box, states[k + 1].box)
  {
    StepForward(states[k], events[k], states[k + 1]);
  }

  /** Every mailbox in the list moves forward to the next. */
  ghost predicate Chain(boxes: seq<Mailbox>) {
    forall k, l | 0 <= k < l < |boxes| && l == k + 1 :: Forward(boxes[k], boxes[l])
  }

  lemma {:induction false} ChainKeepsCache(boxes: seq<Mailbox>, i: nat, j: nat)
    requires Chain(boxes) && i <= j < |boxes| && boxes[j].revision < MAX_UINT64
    ensures boxes[i].revision <= boxes[j].revision
    ensures boxes[i].revision == boxes[j].revision && Serves(boxes[j]) ==> Serves(boxes[i]) && boxes[i].cache == boxes[j].cache
  {
    if i < j {
      assert Forward(boxes[j - 1], boxes[j]);
      ChainKeepsCache(boxes, i, j - 1);
    }
  }

  /** Two listings with the same revision, below saturation, come from the same map from
      paths to IDs, although one failure path empties the cache without a new revision. */
  lemma SameRevisionSameCache(states: seq<World>, events: seq<Event>, i: nat, j: nat)
    requires History(states, events) && i <= j < |states|
    requires states[j].box.revision < MAX_UINT64
    ensures states[i].box.revision <= states[j].box.revision
    ensures states[i].box.revision == states[j].box.revision && Serves(states[j].box) ==>
              Serves(states[i].box) && states[i].box.cache == states[j].box.cache
  {
    var boxes := seq(|states|, k requires 0 <= k < |states| => states[k].box);
    forall k, l | 0 <= k < l < |boxes| && l == k + 1 ensures Forward(boxes[k], boxes[l]) {
      ForwardAt(states, events, k);
    }
    ChainKeepsCache(boxes, i, j);
  }

  /** The failure path: an entry that cannot get an ID empties a serving cache and leaves the
      revision alone; it also stops the cache from serving. */
  lemma SilentClear(s: Mailbox, path: Path)
    requires Serves(s) && IsObjectPath(path) && path !in s.cache && |s.cache| < MAX_SMS_CACHE
    ensures var t := Admit(s, path, None, None);
            t.cache == map[] && t.revision == s.revision && !Serves(t)
  {
  }

  // ----- tombstones -------------------------------------------------------------------------------------------

  /** A list reply that is looked at. */
  predicate Counts(w: World, e: Event) {
    e.Replies? && e.query in w.flights && Current(w.box, w.flights[e.query].epoch, w.flights[e.query].proxy)
  }

  /** The events that take `p` out of the tombstones: an Added signal for it, a new epoch, or a
      counting list that omits it. */
  ghost predicate Lifts(w: World, e: Event, p: Path) {
    match e
    case Added(path) => path == Some(p)
    case Reconcile(proxy, force) => force || proxy != w.box.messaging
    case Replies(_, reply, drawFails) => Counts(w, e) && reply.Listed? && !drawFails && p !in PathsOf(reply.messages)
    case _ => false
  }

  /** A message created at `p` finds room in a live mailbox and has an ID. */
  predicate Enters(s: Mailbox, e: Event, p: Path) {
    && e.Admits? && e.admitted == p && s.live && s.messaging.Some? && IsObjectPath(p) && |s.cache| < MAX_SMS_CACHE
    && (if e.reservedId.Some? then e.reservedId.value in s.reserved else e.drawn.Some?)
  }

  lemma NotKept(messages: seq<Stamp>, tombstones: set<Path>, p: Path)
    requires p in tombstones
    ensures p !in PathsOf(Kept(Eligible(Sort(messages), tombstones)))
  {
    EligibleIs(Sort(messages), tombstones);
  }

  /** A counting list leaves no tombstoned path in the cache, even one an admission had put
      there, and keeps the tombstone of every path it still lists. */
  lemma ListDropsTombstoned(s: Mailbox, epoch: nat, proxy: nat, reply: Reply, drawFails: bool, t: Mailbox, p: Path)
    requires ListStep(s, epoch, proxy, reply, drawFails, t) && Current(s, epoch, proxy) && p in s.tombstones
    ensures p !in t.cache
    ensures p in t.tombstones <==> !(reply.Listed? && !drawFails && p !in PathsOf(reply.messages))
  {
    if reply.Listed? { NotKept(reply.messages, s.tombstones, p); }
  }

  lemma SignalsKeepTombstone(s: Mailbox, path: Option<Path>, p: Path)
    requires p in s.tombstones
    ensures path != Some(p) ==> p in Query(AddedBox(s, path)).tombstones
    ensures Query(AddedBox(s, path)).cache == s.cache
    ensures p in Query(s).tombstones && Query(s).cache == s.cache
  {
  }

  lemma DeletedKeepsTombstone(s: Mailbox, path: Option<Path>, p: Path)
    requires DeletedApplies(s, path) && p in s.tombstones
    ensures p in Query(DeletedBox(s, path)).tombstones
    ensures p !in s.cache ==> p !in Query(DeletedBox(s, path)).cache
  {
    DeletedParts(s, path.value);
    QueryKeepsParts(DeletedBox(s, path));
  }

  lemma AdmitElsewhere(s: Mailbox, path: Path, reservedId: Option<Id>, drawn: Option<Id>, p: Path)
    requires p !in s.cache && p != path
    ensures p !in Admit(s, path, reservedId, drawn).cache
  {
  }

  /** Admission does not look at tombstones. */
  lemma AdmitIgnoresTombstones(s: Mailbox, path: Path, reservedId: Option<Id>, drawn: Option<Id>, p: Path)
    ensures var t := Admit(s, path, reservedId, drawn);
            && t.tombstones == s.tombstones
            && (p !in s.cache ==> (p in t.cache <==> Enters(s, Admits(path, reservedId, drawn), p)))
  {
    if p !in s.cache && p != path { AdmitElsewhere(s, path, reservedId, drawn, p); }
  }

  /** Unless the event lifts the tombstone, it stays; a counting reply leaves the path uncached;
      and an uncached path enters the cache exactly by an admission that finds room and an ID. */
  lemma StepTombstone(w: World, e: Event, v: World, p: Path)
    requires Enabled(w, e) && Next(w, e, v) && p in w.box.tombstones && !Lifts(w, e, p)
    ensures p in v.box.tombstones
    ensures Counts(w, e) ==> p !in v.box.cache
    ensures p !in w.box.cache ==> (p in v.box.cache <==> Enters(w.box, e, p))
  {
    match e
    case Added(path) => SignalsKeepTombstone(w.box, path, p);
    case Deleted(path) => if DeletedApplies(w.box, path) { DeletedKeepsTombstone(w.box, path, p); }
    case Refresh => SignalsKeepTombstone(w.box, None, p);
    case Admits(path, reservedId, drawn) => AdmitIgnoresTombstones(w.box, path, reservedId, drawn, p);
    case Replies(query, reply, drawFails) =>
      var f := w.flights[query];
      if Current(w.box, f.epoch, f.proxy) { ListDropsTombstoned(w.box, f.epoch, f.proxy, reply, drawFails, v.box, p); }
    case _ =>
  }

  lemma TombstoneAt(states: seq<World>, events: seq<Event>, k: nat, p: Path)
    requires History(states, events) && k < |events| && p in states[k].box.tombstones && !Lifts(states[k], events[k], p)
    ensures p in states[k + 1].box.tombstones
    ensures Counts(states[k], events[k]) ==> p !in states[k + 1].box.cache
    ensures p !in states[k].box.cache ==> (p in states[k + 1].box.cache <==> Enters(states[k].box, events[k], p))
  {
    StepTombstone(states[k], events[k], states[k + 1], p);
  }

  /** No event from position i up to j lifts `p`. */
  ghost predicate Unlifted(states: seq<World>, events: seq<Event>, i: nat, j: nat, p: Path)
    requires |events| < |states| && j <= |events|
  {
    forall k | i <= k < j :: !Lifts(states[k], events[k], p)
  }

  lemma {:induction false} BitStays(bits: seq<bool>, i: nat, j: nat)
    requires i <= j < |bits| && bits[i] && forall k, l | i <= k < l <= j && l == k + 1 && bits[k] :: bits[l]
    ensures bits[j]
  {
    if i < j { BitStays(bits, i, j - 1); }
  }

  lemma TombstoneStays(states: seq<World>, events: seq<Event>, i: nat, j: nat, p: Path)
    requires History(states, events) && i <= j <= |events|
    requires p in states[i].box.tombstones && Unlifted(states, events, i, j, p)
    ensures p in states[j].box.tombstones
  {
    var bits := seq(|states|, k requires 0 <= k < |states| => p in states[k].box.tombstones);
    forall k, l | i <= k < l <= j && l == k + 1 && bits[k] ensures bits[l] {
      TombstoneAt(states, events, k, p);
    }
    BitStays(bits, i, j);
  }

  /** Once a path is tombstoned it stays so until an event lifts it, through admissions at that
      path too, and every list that counts until then leaves the path uncached, including one
      that was in flight when the path was deleted. */
  lemma TombstoneHolds(states: seq<World>, events: seq<Event>, i: nat, j: nat, p: Path)
    requires History(states, events) && i <= j <= |events|
    requires p in states[i].box.tombstones && Unlifted(states, events, i, j, p)
    ensures p in states[j].box.tombstones
    ensures forall k | i <= k < j && Counts(states[k], events[k]) :: p !in states[k + 1].box.cache
  {
    TombstoneStays(states, events, i, j, p);
    forall k | i <= k < j && Counts(states[k], events[k]) ensures p !in states[k + 1].box.cache {
      TombstoneStays(states, events, i, k, p);
      TombstoneAt(states, events, k, p);
    }
  }

  /** Where the last run of `true` before j starts. */
  lemma {:induction false} LastRise(bits: seq<bool>, i: nat, j: nat) returns (k: nat)
    requires i <= j < |bits| && !bits[i] && bits[j]
    ensures i <= k < j && !bits[k] && forall l | k < l <= j :: bits[l]
  {
    if bits[j - 1] { k := LastRise(bits, i, j - 1); } else { k := j - 1; }
  }

  /** A path that is cached while its tombstone holds came in by the admission of a message
      created there, and no list has counted since. */
  lemma CachedWhileTombstoned(states: seq<World>, events: seq<Event>, i: nat, j: nat, p: Path) returns (k: nat)
    requires History(states, events) && i <= j <= |events|
    requires p in states[i].box.tombstones && Unlifted(states, events, i, j, p)
    requires p !in states[i].box.cache && p in states[j].box.cache
    ensures i <= k < j && p !in states[k].box.cache && Enters(states[k].box, events[k], p)
    ensures forall l | k < l <= j :: p in states[l].box.cache
    ensures forall l | k < l < j :: !Counts(states[l], events[l])
  {
    var cached := seq(|states|, l requires 0 <= l < |states| => p in states[l].box.cache);
    k := LastRise(cached, i, j);
    assert !cached[k];
    forall l | k < l <= j ensures p in states[l].box.cache {
      assert cached[l];
    }
    TombstoneStays(states, events, i, k, p);
    TombstoneAt(states, events, k, p);
    TombstoneHolds(states, events, i, j, p);
    forall l | k < l < j ensures !Counts(states[l], events[l]) {
      assert p in states[l + 1].box.cache;
    }
  }

  /** A Deleted signal starts that guarantee unless 1,024 paths are tombstoned already. */
  lemma DeletedIsTombstoned(s: Mailbox, path: Path)
    requires s.live && IsObjectPath(path)
    ensures path !in Query(DeletedBox(s, Some(path))).cache
    ensures path in Query(DeletedBox(s, Some(path))).tombstones <==>
            path in s.tombstones || |s.tombstones| < MAX_SMS_CACHE
  {
    var t := DeletedBox(s, Some(path));
    QueryKeepsParts(t);
    assert t.tombstones == Marked(s, path).tombstones;
  }
}
