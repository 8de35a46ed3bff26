/** What each event does to the cache of one modem (bridge.c), exactly: when the revision
    rises, when the cache serves, what an admission leaves and what a new epoch drops. */
module SmsCacheEffects {
  import opened Common
  import opened Stamps
  import opened SmsCache
  import opened SmsCacheRuns

  // ----- the revision -------------------------------------------------------------------------

  /** A created message is looked at: live modem, messaging, good path, a reserved ID if any. */
  predicate Considered(s: Mailbox, e: Event) {
    && e.Admits? && s.live && s.messaging.Some? && IsObjectPath(e.admitted)
    && (e.reservedId.Some? ==> e.reservedId.value in s.reserved)
  }

  /** A message not cached yet that finds room. */
  predicate Fits(s: Mailbox, e: Event) {
    Considered(s, e) && e.admitted !in s.cache && |s.cache| < 1024
  }

  predicate NewEpoch(w: World, e: Event) {
    e.Reconcile? && (e.force || e.proxy != w.box.messaging)
  }

  /** The events that give the inventory a new revision. */
  predicate Changes(w: World, e: Event) {
    match e
    case Added(_) => w.box.live
    case Deleted(path) => w.box.live && path.Some? && IsObjectPath(path.value) && path.value in w.box.cache
    case PropertyChange(path) => w.box.live && path in w.box.cache
    case Reconcile(_, _) => NewEpoch(w, e) && w.box.epoch < 0xFFFF_FFFF
    case Admits(path, reservedId, drawn) =>
      if path in w.box.cache then Considered(w.box, e) && reservedId.Some?
      else Fits(w.box, e) && (reservedId.Some? || drawn.Some?)
    case Replies(_, _, _) => Counts(w, e)
    case _ => false
  }

  function Raised(revision: nat, changed: bool): nat {
    if changed && revision < 0xFFFF_FFFF_FFFF_FFFF then revision + 1 else revision
  }

  lemma AdmitRaises(s: Mailbox, e: Event)
    requires IdsOk(s) && e.Admits?
    ensures Admit(s, e.admitted, e.reservedId, e.drawn).revision ==
            Raised(s.revision, if e.admitted in s.cache then Considered(s, e) && e.reservedId.Some?
                               else Fits(s, e) && (e.reservedId.Some? || e.drawn.Some?))
  {
    if e.admitted in s.cache { assert s.cache[e.admitted] in s.cache.Values; }
  }

  lemma DeletedRaises(s: Mailbox, path: Option<Path>)
    requires DeletedApplies(s, path)
    ensures Query(DeletedBox(s, path)).revision == Raised(s.revision, path.value in s.cache)
  {
    DeletedParts(s, path.value);
    if path.value in s.cache {
      assert DeletedBox(s, path) == Bump(Marked(s, path.value).(cache := s.cache - {path.value}));
    }
  }

  lemma EpochRaises(s: Mailbox, proxy: Option<nat>)
    ensures Query(EpochBox(s, proxy)).revision == Raised(s.revision, s.epoch != MAX_UINT32)
  {
  }

  lemma AddedRaises(s: Mailbox, path: Option<Path>)
    ensures Query(AddedBox(s, path)).revision == Raised(s.revision, s.live)
    ensures Query(s).revision == s.revision
  {
  }

  lemma ReplyRaises(s: Mailbox, epoch: nat, proxy: nat, reply: Reply, drawFails: bool, t: Mailbox)
    requires ListStep(s, epoch, proxy, reply, drawFails, t)
    ensures t.revision == Raised(s.revision, Current(s, epoch, proxy))
  {
  }

  /** The revision rises by one exactly with the events that change the inventory, and stays
      at its last value. */
  lemma RevisionRises(w: World, e: Event, v: World)
    requires IdsOk(w.box) && w.box.epoch <= 0xFFFF_FFFF && w.box.revision <= MAX_UINT64 && Enabled(w, e) && Next(w, e, v)
    ensures v.box.revision == Raised(w.box.revision, Changes(w, e))
  {
    match e
    case Added(path) => AddedRaises(w.box, path);
    case Deleted(path) => if DeletedApplies(w.box, path) { DeletedRaises(w.box, path); }
    case Refresh => AddedRaises(w.box, None);
    case Reconcile(proxy, _) => if NewEpoch(w, e) { EpochRaises(w.box, proxy); }
    case Admits(_, _, _) => AdmitRaises(w.box, e);
    case Replies(query, reply, drawFails) =>
      ReplyRaises(w.box, w.flights[query].epoch, w.flights[query].proxy, reply, drawFails, v.box);
    case _ =>
  }

  lemma EpochBounded(w: World, e: Event, v: World)
    requires w.box.epoch <= 0xFFFF_FFFF && Enabled(w, e) && Next(w, e, v)
    ensures v.box.epoch <= 0xFFFF_FFFF
  {
    match e
    case Deleted(path) => if DeletedApplies(w.box, path) { DeletedEpoch(w.box, path); }
    case Admits(path, reservedId, drawn) => AdmitKeepsCall(w.box, path, reservedId, drawn);
    case Replies(query, reply, drawFails) =>
      if Counts(w, e) { LandingFlags(w, query, reply, drawFails, v.box); }
    case _ =>
  }

  lemma DeletedEpoch(s: Mailbox, path: Option<Path>)
    requires DeletedApplies(s, path)
    ensures Query(DeletedBox(s, path)).epoch == s.epoch
  {
  }

  /** How many of the first k events changed the inventory. */
  ghost function ChangeCount(states: seq<World>, events: seq<Event>, k: nat): nat
    requires k <= |events| <= |states|
  {
    if k == 0 then 0 else ChangeCount(states, events, k - 1) + if Changes(states[k - 1], events[k - 1]) then 1 else 0
  }

  /** In every history the revision is the number of changes so far, until it saturates. */
  lemma {:induction false} RevisionCounts(states: seq<World>, events: seq<Event>, k: nat)
    requires History(states, events) && k <= |events|
    ensures states[k].box.epoch <= 0xFFFF_FFFF
    ensures states[k].box.revision ==
            if ChangeCount(states, events, k) < 0xFFFF_FFFF_FFFF_FFFF then ChangeCount(states, events, k) else 0xFFFF_FFFF_FFFF_FFFF
  {
    if k > 0 {
      RevisionCounts(states, events, k - 1);
      RevisionAt(states, events, k - 1);
    }
  }

  lemma RevisionAt(states: seq<World>, events: seq<Event>, k: nat)
    requires History(states, events) && k < |events|
    requires states[k].box.epoch <= 0xFFFF_FFFF && states[k].box.revision <= MAX_UINT64
    ensures states[k + 1].box.epoch <= 0xFFFF_FFFF
    ensures states[k + 1].box.revision == Raised(states[k].box.revision, Changes(states[k], events[k]))
  {
    IdsStayDistinct(states, events, k);
    RevisionRises(states[k], events[k], states[k + 1]);
    EpochBounded(states[k], events[k], states[k + 1]);
  }

  // ----- when the cache serves -------------------------------------------------------------------

  lemma SignalsServe(s: Mailbox, path: Option<Path>)
    ensures Serves(Query(AddedBox(s, path))) <==> Serves(s)
    ensures Serves(Query(s)) <==> Serves(s)
    ensures DeletedApplies(s, path) ==> (Serves(Query(DeletedBox(s, path))) <==> Serves(s))
  {
    if DeletedApplies(s, path) {
      var t := DeletedBox(s, path);
      assert t.live == s.live && t.messaging == s.messaging && t.status == s.status;
    }
  }

  lemma AdmitServes(s: Mailbox, e: Event)
    requires e.Admits?
    ensures Serves(Admit(s, e.admitted, e.reservedId, e.drawn)) <==>
            Serves(s) && !(Fits(s, e) && e.reservedId.None? && e.drawn.None?)
  {
  }

  lemma ReplyServes(s: Mailbox, epoch: nat, proxy: nat, reply: Reply, drawFails: bool, t: Mailbox)
    requires ListStep(s, epoch, proxy, reply, drawFails, t) && Current(s, epoch, proxy)
    ensures Serves(t) <==> reply.Listed? && !drawFails
    ensures !Serves(t) ==>
              t.cache == map[] && (!s.dirty ==> t.status == if reply.Failed? && reply.cancelled then Cancelled else Unavailable)
    ensures !Serves(t) && s.dirty ==> t.status == Loading
  {
  }

  lemma EpochServes(s: Mailbox, proxy: Option<nat>)
    ensures Serves(Query(EpochBox(s, proxy))) <==> s.live && proxy.Some? && s.epoch != MAX_UINT32 && IsReady(s.status)
  {
  }

  /** Only a list that counts and is installed makes the cache serve; a failed list or draw,
      removal and the loss of messaging stop it. Asking for a list, signals and property
      changes leave it serving, and so does a new epoch with a new proxy, although its cache is
      empty then. */
  lemma ServesIff(w: World, e: Event, v: World)
    requires Enabled(w, e) && Next(w, e, v)
    ensures Serves(v.box) <==>
            if Counts(w, e) then e.reply.Listed? && !e.drawFails
            else if NewEpoch(w, e) then e.proxy.Some? && w.box.epoch != 0xFFFF_FFFF && IsReady(w.box.status)
            else Serves(w.box) && !e.Removal? && !(Fits(w.box, e) && e.reservedId.None? && e.drawn.None?)
  {
    match e
    case Added(path) => SignalsServe(w.box, path);
    case Deleted(path) => SignalsServe(w.box, path);
    case Refresh => SignalsServe(w.box, None);
    case Reconcile(proxy, _) => if NewEpoch(w, e) { EpochServes(w.box, proxy); }
    case Admits(_, _, _) => AdmitServes(w.box, e);
    case Replies(query, reply, drawFails) =>
      if Counts(w, e) { ReplyServes(w.box, w.flights[query].epoch, w.flights[query].proxy, reply, drawFails, v.box); }
    case _ =>
  }

  // ----- what an epoch drops ------------------------------------------------------------------------

  /** A new epoch drops all that is tied to the old proxy and asks the new one for a list; at the
      last generation messaging is given up. */
  lemma EpochStarts(w: World, e: Event, v: World)
    requires Enabled(w, e) && Next(w, e, v) && NewEpoch(w, e)
    ensures v.box.cache == map[] && v.box.reserved == {} && v.box.tombstones == {} && !v.box.dirty && !v.box.truncated
    ensures w.box.epoch != 0xFFFF_FFFF ==>
              && v.box.epoch == w.box.epoch + 1 && v.box.messaging == e.proxy && (v.box.pending <==> e.proxy.Some?)
              && (e.proxy.Some? ==> w.nextQuery in v.flights && v.flights[w.nextQuery].epoch == v.box.epoch)
              && v.box.status == (if e.proxy.None? then Absent else if IsReady(w.box.status) then w.box.status else Loading)
    ensures w.box.epoch == 0xFFFF_FFFF ==>
              v.box.epoch == w.box.epoch && v.box.messaging.None? && !v.box.pending && v.box.status == Unavailable
  {
  }

  // ----- what an admission leaves ---------------------------------------------------------------------

  /** A created message is cached under its reserved ID or, without one, under the drawn ID; a
      path cached already takes over the reserved ID; the reserved ID is used up. Otherwise
      nothing is cached: a full cache is marked, and a message without any ID empties it. */
  lemma AdmitLeaves(s: Mailbox, e: Event)
    requires IdsOk(s) && e.Admits?
    ensures var t := Admit(s, e.admitted, e.reservedId, e.drawn);
            && t.tombstones == s.tombstones && t.pending == s.pending && t.dirty == s.dirty
            && (!Considered(s, e) ==> t == s)
            && (Considered(s, e) && e.reservedId.Some? && (e.admitted in s.cache || |s.cache| < 1024) ==>
                  t.cache == s.cache[e.admitted := e.reservedId.value] && t.reserved == s.reserved - {e.reservedId.value})
            && (Considered(s, e) && e.reservedId.None? && e.admitted in s.cache ==> t == s)
            && (Fits(s, e) && e.reservedId.None? ==>
                  t.cache == (if e.drawn.Some? then s.cache[e.admitted := e.drawn.value] else map[]) && t.reserved == s.reserved)
            && (Considered(s, e) && e.admitted !in s.cache && |s.cache| >= 1024 ==> t == s.(truncated := true))
  {
    if e.admitted in s.cache { KnownLeaves(s, e); }
  }

  lemma KnownLeaves(s: Mailbox, e: Event)
    requires IdsOk(s) && e.Admits? && e.admitted in s.cache
    ensures var t := Admit(s, e.admitted, e.reservedId, e.drawn);
            && t.tombstones == s.tombstones && t.pending == s.pending && t.dirty == s.dirty
            && (if Considered(s, e) && e.reservedId.Some? then
                  t.cache == s.cache[e.admitted := e.reservedId.value] && t.reserved == s.reserved - {e.reservedId.value}
                else t == s)
  {
    assert s.cache[e.admitted] in s.cache.Values;
  }
}
