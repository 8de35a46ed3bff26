/** The mailbox as the bridge keeps it: fields updated in place by signal handlers and by the
    loop that installs a whole list. */
module SmsCacheObject {
  import opened Common
  import opened Stamps
  import opened SmsCache

  class MailboxObject {
    var live: bool
    var messaging: Option<nat>
    var epoch: nat
    var cache: map<Path, Id>
    var reserved: set<Id>
    var tombstones: set<Path>
    var pending: bool
    var dirty: bool
    var truncated: bool
    var status: Status
    var revision: nat
    /** Secure random source: the n-th draw, absent when the source fails. */
    const random: nat -> Option<Id>
    var draws: nat

    function Value(): Mailbox
      reads this
    {
      Mailbox(live, messaging, epoch, cache, reserved, tombstones, pending, dirty, truncated, status, revision)
    }

    constructor (random: nat -> Option<Id>)
      ensures Value() == Mailbox(true, None, 0, map[], {}, {}, false, false, false, Absent, 0)
    {
      this.random, draws := random, 0;
      live, messaging, epoch := true, None, 0;
      cache, reserved, tombstones := map[], {}, {};
      pending, dirty, truncated, status, revision := false, false, false, Absent, 0;
    }

    /** Up to eight draws until one is unused; a failed draw ends the attempt. */
    method NewId(additional: map<Path, Id>) returns (id: Option<Id>)
      modifies this`draws
      ensures id == FirstFree(random, old(draws), RANDOM_RETRIES, cache.Values + additional.Values + reserved)
      ensures id.Some? ==> Free(Value(), id.value) && id.value !in additional.Values
      ensures old(draws) < draws && (id.Some? ==> id.value in Drawn(random, old(draws), draws))
    {
      ghost var taken := cache.Values + additional.Values + reserved;
      var attempt := 0;
      while attempt < RANDOM_RETRIES
        invariant attempt <= RANDOM_RETRIES && draws == old(draws) + attempt
        invariant FirstFree(random, old(draws), RANDOM_RETRIES, taken) == FirstFree(random, draws, RANDOM_RETRIES - attempt, taken)
      {
        var candidate := random(draws);
        draws := draws + 1;
        if candidate.None? {
          return None;
        }
        if candidate.value !in cache.Values && candidate.value !in additional.Values && candidate.value !in reserved {
          return candidate;
        }
        attempt := attempt + 1;
      }
      return None;
    }

    method BumpRevision()
      modifies this`revision
      ensures Value() == Bump(old(Value()))
    {
      if revision < MAX_UINT64 {
        revision := revision + 1;
      }
    }

    /** Returns whether a list call was dispatched. */
    method QuerySms() returns (dispatched: bool)
      modifies this`pending, this`dirty, this`status
      ensures Value() == Query(old(Value()))
      ensures dispatched <==> Dispatches(old(Value()))
    {
      if !live || messaging.None? {
        return false;
      }
      if pending {
        dirty := true;
        return false;
      }
      pending := true;
      if !IsReady(status) {
        status := Loading;
      }
      return true;
    }

    method SmsAdded(path: Option<Path>) returns (dispatched: bool)
      modifies this
      ensures Value() == if old(live) then Query(AddedBox(old(Value()), path)) else old(Value())
      ensures dispatched <==> Dispatches(old(Value()))
    {
      if !live {
        return false;
      }
      if path.Some? && IsObjectPath(path.value) {
        tombstones := tombstones - {path.value};
      }
      BumpRevision();
      dispatched := QuerySms();
    }

    method SmsDeleted(path: Option<Path>) returns (dispatched: bool)
      modifies this
      ensures Value() == if DeletedApplies(old(Value()), path) then Query(DeletedBox(old(Value()), path)) else old(Value())
      ensures dispatched <==> DeletedApplies(old(Value()), path) && Dispatches(old(Value()))
    {
      if !live || path.None? || !IsObjectPath(path.value) {
        return false;
      }
      if |tombstones| < MAX_SMS_CACHE {
        tombstones := tombstones + {path.value};
      }
      if path.value in cache {
        cache := cache - {path.value};
        BumpRevision();
      }
      dispatched := QuerySms();
    }

    /** Refuses exactly for a modem that is gone and when no unused ID could be drawn. */
    method ReserveId() returns (id: Option<Id>)
      modifies this`reserved, this`draws
      ensures id == if live then FirstFree(random, old(draws), RANDOM_RETRIES, UsedIds(old(Value()))) else None
      ensures id.Some? ==> live && Free(old(Value()), id.value)
      ensures Value() == Reserve(old(Value()), id)
    {
      if !live {
        return None;
      }
      id := NewId(map[]);
      NoneAdditional(Value());
      if id.Some? {
        reserved := reserved + {id.value};
      }
    }

    /** A created message whose path is already cached takes over its reserved ID. */
    method RenameEntry(path: Path, reservedId: Option<Id>) returns (entry: Option<Id>)
      requires live && messaging.Some? && IsObjectPath(path) && path in cache
      requires reservedId.Some? ==> reservedId.value in reserved
      modifies this`cache, this`reserved, this`revision
      ensures Value() == Admit(old(Value()), path, reservedId, None)
      ensures entry.Some? ==> path in cache && cache[path] == entry.value && (reservedId.Some? ==> entry == reservedId)
    {
      if reservedId.Some? && cache[path] != reservedId.value {
        if reservedId.value in cache.Values {
          return None;
        }
        cache := cache[path := reservedId.value];
        BumpRevision();
      }
      if reservedId.Some? {
        reserved := reserved - {reservedId.value};
      }
      entry := Some(cache[path]);
    }

    method AddEntry(path: Path, reservedId: Option<Id>, id: Id)
      requires live && messaging.Some? && IsObjectPath(path) && path !in cache && |cache| < MAX_SMS_CACHE
      requires reservedId.Some? ==> reservedId.value in reserved && id == reservedId.value
      modifies this`cache, this`reserved, this`revision
      ensures Value() == Admit(old(Value()), path, reservedId, Some(id))
      ensures path in cache && cache[path] == id
    {
      cache := cache[path := id];
      if reservedId.Some? {
        reserved := reserved - {reservedId.value};
      }
      BumpRevision();
    }

    method AdmitDrawn(path: Path) returns (id: Option<Id>)
      requires live && messaging.Some? && IsObjectPath(path) && path !in cache && |cache| < MAX_SMS_CACHE
      modifies this
      ensures id == FirstFree(random, old(draws), RANDOM_RETRIES, UsedIds(old(Value())))
      ensures id.Some? ==> Free(old(Value()), id.value) && path in cache && cache[path] == id.value
      ensures Value() == Admit(old(Value()), path, None, id)
    {
      id := NewId(map[]);
      NoneAdditional(Value());
      if id.None? {
        status := Unavailable;
        cache := map[];
      } else {
        AddEntry(path, None, id.value);
      }
    }

    /** Put a created message in the cache. Returns its ID when it is there afterwards; an ID is
        drawn exactly when one is needed. */
    method AdmitSms(path: Path, reservedId: Option<Id>) returns (entry: Option<Id>, ghost drawn: Option<Id>)
      modifies this
      ensures drawn == if NeedsDraw(old(Value()), path, reservedId)
                       then FirstFree(random, old(draws), RANDOM_RETRIES, UsedIds(old(Value()))) else None
      ensures drawn.Some? ==> Free(old(Value()), drawn.value)
      ensures Value() == Admit(old(Value()), path, reservedId, drawn)
      ensures entry.Some? ==> path in cache && cache[path] == entry.value && (reservedId.Some? ==> entry == reservedId)
    {
      entry, drawn := None, None;
      if !live || messaging.None? || (reservedId.Some? && reservedId.value !in reserved) || !IsObjectPath(path) {
        return;
      }
      if path in cache {
        entry := RenameEntry(path, reservedId);
      } else if |cache| >= MAX_SMS_CACHE {
        truncated := true;
      } else if reservedId.Some? {
        AddEntry(path, reservedId, reservedId.value);
        entry := reservedId;
      } else {
        entry := AdmitDrawn(path);
        drawn := entry;
      }
    }

    method ReconcileMessaging(proxy: Option<nat>, force: bool) returns (dispatched: bool)
      requires live
      modifies this
      ensures !force && proxy == old(messaging) ==> Value() == old(Value()) && !dispatched
      ensures force || proxy != old(messaging) ==> Value() == Query(EpochBox(old(Value()), proxy))
      ensures force || proxy != old(messaging) ==> (dispatched <==> Dispatches(EpochBox(old(Value()), proxy)))
    {
      if !force && proxy == messaging {
        return false;
      }
      messaging := None;
      cache, reserved, tombstones := map[], {}, {};
      pending, dirty, truncated := false, false, false;
      if epoch == MAX_UINT32 {
        status := Unavailable;
        return false;
      }
      epoch := epoch + 1;
      BumpRevision();
      if proxy.None? {
        status := Absent;
        return false;
      }
      messaging := proxy;
      dispatched := QuerySms();
    }

    /** Find the ID for one more listed path: stolen from the old cache or newly drawn. */
    method TakeId(path: Path, next: map<Path, Id>) returns (id: Option<Id>)
      requires Clean(cache, next, reserved) && (path in cache ==> path !in next)
      modifies this`draws, this`cache
      ensures id.Some? ==> Clean(cache, next[path := id.value], reserved) && cache == old(cache) - {path}
      ensures id.Some? ==>
                if path in old(cache) then id.value == old(cache)[path]
                else id.value !in old(cache).Values && id.value !in next.Values
      ensures old(draws) <= draws && (id.Some? ==> id.value in old(cache).Values + Drawn(random, old(draws), draws))
      ensures id.None? ==>
                old(draws) < draws
                && FirstFree(random, old(draws), RANDOM_RETRIES, old(cache).Values + next.Values + reserved).None?
    {
      if path in cache {
        id := Some(cache[path]);
        StealKeeps(cache, next, path, reserved);
        cache := cache - {path};
      } else {
        id := NewId(next);
        if id.Some? {
          assert cache - {path} == cache;
        }
      }
    }

    /** Entries of the old cache `whole` were moved to `next` or are still here; every ID in
        `next` is an old one or was drawn since `from`. */
    ghost predicate Stealing(whole: map<Path, Id>, next: map<Path, Id>, from: nat)
      reads this
    {
      && cache == whole - next.Keys && Clean(cache, next, reserved)
      && from <= draws && next.Values <= whole.Values + Drawn(random, from, draws)
    }

    /** One more listed path, or a failed draw. */
    method PlaceNext(path: Path, next: map<Path, Id>, ghost whole: map<Path, Id>, ghost from: nat) returns (id: Option<Id>)
      requires Stealing(whole, next, from)
      modifies this`draws, this`cache
      ensures id.None? ==> DrawFailed(random, from, draws, whole.Values + reserved)
      ensures id.Some? ==>
                && Stealing(whole, next[path := id.value], from)
                && var rest := whole - next.Keys;
                   if path in rest then id.value == rest[path] else id.value !in rest.Values && id.value !in next.Values
    {
      ghost var position, left := draws, cache;
      id := TakeId(path, next);
      if id.None? {
        FailureFound(random, from, position, draws, whole, left, next, reserved);
      } else {
        ValuesDrawn(random, from, position, draws, whole, left, next, path, id.value);
        assert cache == whole - next[path := id.value].Keys;
      }
    }

    /** The loop over a sorted list: build the new cache, stealing entries of the old one. */
    method Build(sorted: seq<Stamp>) returns (built: Option<map<Path, Id>>, seen: set<Path>, cut: bool)
      requires Injective(cache) && cache.Values !! reserved
      modifies this`draws, this`cache
      ensures seen <= tombstones
      ensures built.Some? ==> BuiltFrom(sorted, tombstones, old(cache), reserved, built.value, seen, cut)
      ensures built.None? ==> DrawFailed(random, old(draws), draws, old(cache).Values + reserved)
    {
      var count, i := 0, 0;
      var next: map<Path, Id> := map[];
      seen, cut := {}, false;
      NothingBuilt(sorted, tombstones, cache, reserved);
      while i < |sorted|
        invariant i <= |sorted|
        invariant Stealing(old(cache), next, old(draws))
        invariant Partial(sorted, i, tombstones, old(cache), next, seen, cut, count)
      {
        var m := sorted[i];
        if !ValidMessage(m) {
          SkipStep(sorted, i, tombstones, old(cache), next, seen, cut, count);
        } else if m.name.value in tombstones {
          SkipStep(sorted, i, tombstones, old(cache), next, seen, cut, count);
          seen := seen + {m.name.value};
        } else if count >= MAX_SMS_CACHE {
          CutStep(sorted, i, tombstones, old(cache), next, seen, cut, count);
          cut := true;
        } else {
          var id := PlaceNext(m.name.value, next, old(cache), old(draws));
          if id.None? {
            return None, seen, cut;
          }
          PlaceStep(sorted, i, tombstones, old(cache), next, seen, cut, count, id.value);
          next := next[m.name.value := id.value];
          count := count + 1;
        }
        i := i + 1;
      }
      built := Some(next);
    }

    /** Cache, tombstones and status after a reply that counts. */
    method ApplyReply(reply: Reply) returns (ghost drawFails: bool)
      requires IdsOk(Value())
      modifies this
      ensures reply.Failed? ==> Value() == old(Value()).(cache := map[], status := FailedStatus(reply.cancelled))
      ensures drawFails ==> reply.Listed? && DrawFailed(random, old(draws), draws, UsedIds(old(Value())))
      ensures reply.Listed? ==>
                if drawFails then Value() == old(Value()).(cache := map[], status := Unavailable)
                else CacheFrom(old(Value()), reply.messages, cache) && Value() == Placed(old(Value()), reply.messages, cache)
    {
      drawFails := false;
      if reply.Failed? {
        status := FailedStatus(reply.cancelled);
        cache := map[];
        return;
      }
      var next, seen, cut := Build(Sort(reply.messages));
      if next.None? {
        drawFails := true;
        cache := map[];
        status := Unavailable;
        return;
      }
      BuiltIsCacheFrom(old(Value()), reply.messages, next.value, seen, cut);
      cache := next.value;
      truncated := cut;
      status := if cut then ReadyTruncated else Ready;
      tombstones := tombstones * seen;
    }

    /** A list reply: ignored when stale, emptying the cache when the call failed or when eight
        draws in a row gave no unused ID, otherwise installed; a refresh asked for meanwhile is
        dispatched at once. */
    method ListReady(askedEpoch: nat, askedProxy: nat, reply: Reply) returns (dispatched: bool, ghost drawFails: bool)
      requires IdsOk(Value())
      modifies this
      ensures ListStep(old(Value()), askedEpoch, askedProxy, reply, drawFails, Value())
      ensures drawFails ==> reply.Listed? && DrawFailed(random, old(draws), draws, UsedIds(old(Value())))
      ensures dispatched <==> Current(old(Value()), askedEpoch, askedProxy) && old(dirty)
    {
      drawFails := false;
      if !live || messaging != Some(askedProxy) || epoch != askedEpoch {
        dispatched := false;
        return;
      }
      pending := false;
      var requery := dirty;
      dirty := false;
      drawFails := ApplyReply(reply);
      ghost var applied := cache;
      BumpRevision();
      dispatched := false;
      if requery {
        dispatched := QuerySms();
      }
      assert cache == applied;
    }
  }

  // ----- steps of the loop ----------------------------------------------------------------------

  function FirstFree(random: nat -> Option<Id>, position: nat, attempts: nat, taken: set<Id>): Option<Id>
    decreases attempts
  {
    if attempts == 0 || random(position).None? then None
    else if random(position).value !in taken then random(position)
    else FirstFree(random, position + 1, attempts - 1, taken)
  }

  ghost function UsedIds(s: Mailbox): set<Id> {
    s.cache.Values + s.reserved
  }

  lemma NoneAdditional(s: Mailbox)
    ensures var none: map<Path, Id> := map[]; s.cache.Values + none.Values + s.reserved == UsedIds(s)
  {
  }

  /** A created message needs a drawn ID: it has none reserved and a place in the cache. */
  predicate NeedsDraw(s: Mailbox, path: Path, reservedId: Option<Id>) {
    s.live && s.messaging.Some? && IsObjectPath(path) && path !in s.cache && |s.cache| < MAX_SMS_CACHE && reservedId.None?
  }

  /** The IDs that came from the random source between two positions. */
  ghost function Drawn(random: nat -> Option<Id>, from: nat, to: nat): set<Id> {
    set k | from <= k < to && random(k).Some? :: random(k).value
  }

  /** Among the draws from `from` to `to` there was an attempt that found no ID unused, where
      `used` and what was drawn before were in use at most. */
  ghost predicate DrawFailed(random: nat -> Option<Id>, from: nat, to: nat, used: set<Id>) {
    exists position, taken ::
      && from <= position < to && taken <= used + Drawn(random, from, position)
      && FirstFree(random, position, RANDOM_RETRIES, taken).None?
  }

  lemma FailureFound(random: nat -> Option<Id>, from: nat, position: nat, to: nat, whole: map<Path, Id>, left: map<Path, Id>,
                     next: map<Path, Id>, reserved: set<Id>)
    requires from <= position < to && left == whole - next.Keys && next.Values <= whole.Values + Drawn(random, from, position)
    requires FirstFree(random, position, RANDOM_RETRIES, left.Values + next.Values + reserved).None?
    ensures DrawFailed(random, from, to, whole.Values + reserved)
  {
    LeftIsPart(whole, left, next);
    var taken := left.Values + next.Values + reserved;
    assert taken <= whole.Values + reserved + Drawn(random, from, position);
  }

  lemma LeftIsPart(whole: map<Path, Id>, left: map<Path, Id>, next: map<Path, Id>)
    requires left == whole - next.Keys
    ensures left.Values <= whole.Values
  {
    forall v | v in left.Values ensures v in whole.Values {
      var p :| p in left && left[p] == v;
      assert whole[p] == v;
    }
  }

  lemma ValuesDrawn(random: nat -> Option<Id>, from: nat, position: nat, to: nat, whole: map<Path, Id>, left: map<Path, Id>,
                    next: map<Path, Id>, path: Path, id: Id)
    requires from <= position <= to && left == whole - next.Keys && next.Values <= whole.Values + Drawn(random, from, position)
    requires id in left.Values + Drawn(random, position, to)
    ensures next[path := id].Values <= whole.Values + Drawn(random, from, to)
  {
    LeftIsPart(whole, left, next);
    assert Drawn(random, from, position) + Drawn(random, position, to) <= Drawn(random, from, to);
    var longer := next[path := id];
    forall v | v in longer.Values ensures v in next.Values || v == id {
      var p :| p in longer && longer[p] == v;
      if p != path { assert next[p] == v; }
    }
  }

  /** State of the loop after `i` messages. */
  ghost predicate Partial(sorted: seq<Stamp>, i: nat, tombstones: set<Path>, whole: map<Path, Id>,
                          next: map<Path, Id>, seen: set<Path>, cut: bool, count: nat)
    requires i <= |sorted|
  {
    var eligible := Eligible(sorted[..i], tombstones);
    && count == |Kept(eligible)| && seen <= tombstones
    && next.Keys == PathsOf(Kept(eligible))
    && (cut <==> |eligible| > MAX_SMS_CACHE)
    && seen == tombstones * PathsOf(sorted[..i])
    && (DistinctPaths(sorted) ==> IdsCarried(whole, next))
  }

  ghost predicate BuiltFrom(sorted: seq<Stamp>, tombstones: set<Path>, whole: map<Path, Id>, reserved: set<Id>,
                            built: map<Path, Id>, seen: set<Path>, cut: bool) {
    (exists count: nat :: Partial(sorted, |sorted|, tombstones, whole, built, seen, cut, count)) && Injective(built) && built.Values !! reserved
  }

  lemma NothingBuilt(sorted: seq<Stamp>, tombstones: set<Path>, whole: map<Path, Id>, reserved: set<Id>)
    requires Injective(whole) && whole.Values !! reserved
    ensures Partial(sorted, 0, tombstones, whole, map[], {}, false, 0)
    ensures whole - {} == whole && Clean(whole, map[], reserved)
  {
    var none: map<Path, Id> := map[];
    assert none.Values == {};
  }

  lemma SkipStep(sorted: seq<Stamp>, i: nat, tombstones: set<Path>, whole: map<Path, Id>,
                 next: map<Path, Id>, seen: set<Path>, cut: bool, count: nat)
    requires i < |sorted| && Partial(sorted, i, tombstones, whole, next, seen, cut, count)
    requires !ValidMessage(sorted[i]) || sorted[i].name.value in tombstones
    ensures var met := if ValidMessage(sorted[i]) then seen + {sorted[i].name.value} else seen;
            Partial(sorted, i + 1, tombstones, whole, next, met, cut, count)
  {
    ListPrefix(sorted, tombstones, i);
  }

  lemma CutStep(sorted: seq<Stamp>, i: nat, tombstones: set<Path>, whole: map<Path, Id>,
                next: map<Path, Id>, seen: set<Path>, cut: bool, count: nat)
    requires i < |sorted| && Partial(sorted, i, tombstones, whole, next, seen, cut, count)
    requires ValidMessage(sorted[i]) && sorted[i].name.value !in tombstones
    requires count >= MAX_SMS_CACHE
    ensures Partial(sorted, i + 1, tombstones, whole, next, seen, true, count)
  {
    ListPrefix(sorted, tombstones, i);
  }

  lemma PlaceStep(sorted: seq<Stamp>, i: nat, tombstones: set<Path>, whole: map<Path, Id>,
                  next: map<Path, Id>, seen: set<Path>, cut: bool, count: nat, id: Id)
    requires i < |sorted| && Partial(sorted, i, tombstones, whole, next, seen, cut, count)
    requires ValidMessage(sorted[i]) && sorted[i].name.value !in tombstones
    requires count < MAX_SMS_CACHE
    requires var path := sorted[i].name.value;
             var rest := whole - next.Keys;
             if path in rest then id == rest[path] else id !in rest.Values && id !in next.Values
    ensures Partial(sorted, i + 1, tombstones, whole, next[sorted[i].name.value := id], seen, cut, count + 1)
  {
    ListPrefix(sorted, tombstones, i);
    if DistinctPaths(sorted) { CarryOn(sorted, tombstones, i, whole, next, id); }
  }

  lemma BuiltIsCacheFrom(s: Mailbox, messages: seq<Stamp>, built: map<Path, Id>, seen: set<Path>, cut: bool)
    requires BuiltFrom(Sort(messages), s.tombstones, s.cache, s.reserved, built, seen, cut)
    ensures CacheFrom(s, messages, built)
    ensures cut <==> |Eligible(Sort(messages), s.tombstones)| > MAX_SMS_CACHE
    ensures s.tombstones * seen == s.tombstones * PathsOf(messages)
  {
    var sorted := Sort(messages);
    assert sorted[..|sorted|] == sorted;
    SortedFacts(messages);
  }

  lemma SortedFacts(messages: seq<Stamp>)
    ensures PathsOf(Sort(messages)) == PathsOf(messages)
    ensures DistinctPaths(messages) ==> DistinctPaths(Sort(messages))
  {
    SortPermutes(messages);
    var sorted := Sort(messages);
    forall m ensures m in messages <==> m in sorted {
      assert m in messages <==> m in multiset(messages);
      assert m in sorted <==> m in multiset(sorted);
    }
    PathsIncluded(messages, sorted);
    PathsIncluded(sorted, messages);
    if DistinctPaths(messages) { PermutedPathsDistinct(messages, sorted); }
  }

  lemma PathsIncluded(a: seq<Stamp>, b: seq<Stamp>)
    requires forall m | m in a :: m in b
    ensures PathsOf(a) <= PathsOf(b)
  {
    forall p | p in PathsOf(a) ensures p in PathsOf(b) {
      var k :| 0 <= k < |a| && ValidMessage(a[k]) && a[k].name.value == p;
      assert a[k] in b;
      var j :| 0 <= j < |b| && b[j] == a[k];
      assert ValidMessage(b[j]);
    }
  }

  /** What one more message of the sorted list adds. */
  lemma ListPrefix(sorted: seq<Stamp>, tombstones: set<Path>, i: nat)
    requires i < |sorted|
    ensures var e, m := Eligible(sorted[..i], tombstones), sorted[i];
            var longer := Eligible(sorted[..i + 1], tombstones);
            && PathsOf(sorted[..i + 1]) == PathsOf(sorted[..i]) + (if ValidMessage(m) then {m.name.value} else {})
            && (if ValidMessage(m) && m.name.value !in tombstones then
                  && longer == e + [m]
                  && (if |e| < MAX_SMS_CACHE then PathsOf(Kept(longer)) == PathsOf(Kept(e)) + {m.name.value}
                      else Kept(longer) == Kept(e))
                else longer == e)
  {
    PathsGrow(sorted, i);
    assert sorted[..i + 1][..i] == sorted[..i];
    var e, m := Eligible(sorted[..i], tombstones), sorted[i];
    var longer := Eligible(sorted[..i + 1], tombstones);
    if ValidMessage(m) && m.name.value !in tombstones && |e| < MAX_SMS_CACHE {
      PathsGrow(longer, |e|);
      assert longer[..|e|] == e && longer[..|e| + 1] == longer;
    }
  }

  /** No two entries of the old and new cache share an ID, and none is reserved. */
  ghost predicate Clean(left: map<Path, Id>, next: map<Path, Id>, reserved: set<Id>) {
    && Injective(left) && Injective(next)
    && next.Values !! left.Values && next.Values !! reserved && left.Values !! reserved
  }

  lemma StealKeeps(left: map<Path, Id>, next: map<Path, Id>, path: Path, reserved: set<Id>)
    requires Clean(left, next, reserved) && path in left && path !in next
    ensures Clean(left - {path}, next[path := left[path]], reserved)
  {
    var rest, longer := left - {path}, next[path := left[path]];
    forall v | v in longer.Values ensures v in next.Values || v == left[path] {
      var p :| p in longer && longer[p] == v;
      if p != path { assert next[p] == v; }
    }
    assert left[path] in left.Values;
    forall v | v in rest.Values ensures v in left.Values && v != left[path] {
      var p :| p in rest && rest[p] == v;
      assert left[p] == v;
    }
    forall q | q in next ensures next[q] != left[path] {
      assert next[q] in next.Values;
    }
  }

  /** With distinct paths a message's path has not been met before, so it keeps its old ID or
      takes one that no path had. */
  lemma CarryOn(sorted: seq<Stamp>, tombstones: set<Path>, i: nat, whole: map<Path, Id>, next: map<Path, Id>, id: Id)
    requires i < |sorted| && DistinctPaths(sorted) && ValidMessage(sorted[i])
    requires next.Keys == PathsOf(Kept(Eligible(sorted[..i], tombstones))) && IdsCarried(whole, next)
    requires var path := sorted[i].name.value;
             var rest := whole - next.Keys;
             if path in rest then id == rest[path] else id !in rest.Values && id !in next.Values
    ensures IdsCarried(whole, next[sorted[i].name.value := id])
  {
    var path := sorted[i].name.value;
    NotMetBefore(sorted, tombstones, i);
    var rest := whole - next.Keys;
    forall p | p in whole ensures whole[p] in rest.Values || whole[p] in next.Values {
      if p in next { assert next[p] == whole[p]; } else { assert rest[p] == whole[p]; }
    }
  }

  lemma NotMetBefore(sorted: seq<Stamp>, tombstones: set<Path>, i: nat)
    requires i < |sorted| && DistinctPaths(sorted) && ValidMessage(sorted[i])
    ensures sorted[i].name.value !in PathsOf(Kept(Eligible(sorted[..i], tombstones)))
  {
    var e := Eligible(sorted[..i], tombstones);
    var kept := Kept(e);
    EligibleIs(sorted[..i], tombstones);
    forall k | 0 <= k < |kept| && ValidMessage(kept[k]) ensures kept[k].name.value != sorted[i].name.value {
      assert kept[k] == e[k] && e[k] in sorted[..i];
      var j :| 0 <= j < i && sorted[j] == e[k];
      assert sorted[j].name != sorted[i].name;
    }
  }
}
