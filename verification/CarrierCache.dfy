/** The overview page's last-known-good carrier topologies (overview.js): one entry per modem,
    shown again for a while when a query fails in a transient way. */
module CarrierCache {
  import opened Common

  const MAX_ENTRIES: nat := 64
  const TTL_MS: int := 30000

  type ModemId = string

  datatype Entry<T> = Entry(generation: nat, receivedAt: int, topology: T)

  /** A modem as the inventory lists it. */
  datatype Summary = Summary(id: ModemId, generation: nat)

  /** A carrier reply after validation: a topology, a well-formed transient error for this
      modem, or anything else. */
  datatype Reply<T> = Valid(topology: T) | Transient | Other

  datatype Event<T> =
    | InventoryFails
    | Inventory(summaries: seq<Summary>)
    | Answer(reply: Reply<T>, summary: Summary, now: int)

  type Cache<T> = map<ModemId, Entry<T>>

  /** Generation of the last summary with this ID. */
  function Listed(summaries: seq<Summary>, id: ModemId): Option<nat> {
    if summaries == [] then None
    else if summaries[|summaries| - 1].id == id then Some(summaries[|summaries| - 1].generation)
    else Listed(summaries[..|summaries| - 1], id)
  }

  function Pruned<T>(cache: Cache<T>, summaries: seq<Summary>): Cache<T> {
    if |summaries| > MAX_ENTRIES then map[]
    else map id | id in cache && Listed(summaries, id) == Some(cache[id].generation) :: cache[id]
  }

  predicate Usable<T>(e: Entry<T>, summary: Summary, now: int) {
    e.generation == summary.generation && 0 <= now - e.receivedAt <= TTL_MS
  }

  /** An entry that no other is older than. */
  ghost predicate IsOldest<T>(cache: Cache<T>, victim: ModemId) {
    victim in cache && forall id | id in cache :: cache[victim].receivedAt <= cache[id].receivedAt
  }

  /** A full cache makes room for a new modem by dropping an oldest entry. */
  ghost predicate Remembered<T>(cache: Cache<T>, after: Cache<T>, id: ModemId, e: Entry<T>) {
    if id !in cache && |cache| >= MAX_ENTRIES then
      exists victim :: IsOldest(cache, victim) && after == (cache - {victim})[id := e]
    else after == cache[id := e]
  }

  /** One event: the cache after it and the topology shown, if any. */
  ghost predicate Next<T>(cache: Cache<T>, e: Event<T>, after: Cache<T>, shown: Option<T>) {
    match e
    case InventoryFails => after == map[] && shown.None?
    case Inventory(summaries) => after == Pruned(cache, summaries) && shown.None?
    case Answer(reply, summary, now) =>
      match reply
      case Valid(topology) =>
        Remembered(cache, after, summary.id, Entry(summary.generation, now, topology)) && shown == Some(topology)
      case Transient =>
        if summary.id in cache && Usable(cache[summary.id], summary, now) then
          after == cache && shown == Some(cache[summary.id].topology)
        else after == cache - {summary.id} && shown.None?
      case Other => after == cache - {summary.id} && shown.None?
  }

  class CarrierStore<T> {
    var entries: Cache<T>

    constructor ()
      ensures entries == map[]
    {
      entries := map[];
    }

    method Clear()
      modifies this
      ensures Next(old(entries), InventoryFails, entries, None)
    {
      entries := map[];
    }

    method Prune(summaries: seq<Summary>)
      modifies this
      ensures Next(old(entries), Inventory(summaries), entries, None)
    {
      if |summaries| > MAX_ENTRIES {
        entries := map[];
        return;
      }
      var todo := entries.Keys;
      while todo != {}
        invariant todo <= old(entries).Keys
        invariant forall id | id in old(entries) ::
                    id in entries <==> id in todo || Listed(summaries, id) == Some(old(entries)[id].generation)
        invariant forall id | id in entries :: id in old(entries) && entries[id] == old(entries)[id]
        decreases |todo|
      {
        var id :| id in todo;
        if Listed(summaries, id) != Some(entries[id].generation) {
          entries := entries - {id};
        }
        todo := todo - {id};
      }
    }

    method FindOldest() returns (victim: ModemId)
      requires entries != map[]
      ensures IsOldest(entries, victim)
    {
      victim :| victim in entries;
      var todo := entries.Keys - {victim};
      while todo != {}
        invariant victim in entries && todo <= entries.Keys
        invariant forall id | id in entries && id !in todo :: entries[victim].receivedAt <= entries[id].receivedAt
        decreases |todo|
      {
        var id :| id in todo;
        if entries[id].receivedAt < entries[victim].receivedAt {
          victim := id;
        }
        todo := todo - {id};
      }
    }

    method Remember(topology: T, summary: Summary, now: int)
      modifies this
      ensures Remembered(old(entries), entries, summary.id, Entry(summary.generation, now, topology))
    {
      if summary.id !in entries && |entries| >= MAX_ENTRIES {
        var victim := FindOldest();
        entries := entries - {victim};
      }
      entries := entries[summary.id := Entry(summary.generation, now, topology)];
    }

    method Select(reply: Reply<T>, summary: Summary, now: int) returns (shown: Option<T>)
      modifies this
      ensures Next(old(entries), Answer(reply, summary, now), entries, shown)
    {
      if reply.Valid? {
        Remember(reply.topology, summary, now);
        return Some(reply.topology);
      }
      if reply.Transient? && summary.id in entries && Usable(entries[summary.id], summary, now) {
        return Some(entries[summary.id].topology);
      }
      entries := entries - {summary.id};
      shown := None;
    }
  }

  // ----- whole histories ------------------------------------------------------------------------------

  ghost predicate History<T(!new)>(caches: seq<Cache<T>>, events: seq<Event<T>>, shown: seq<Option<T>>) {
    && |caches| == |events| + 1 && |shown| == |events| && caches[0] == map[]
    && forall k | 0 <= k < |events| :: Next(caches[k], events[k], caches[k + 1], shown[k])
  }

  /** A valid answer for this modem object. */
  predicate IsSuccess<T>(e: Event<T>, id: ModemId) {
    e.Answer? && e.reply.Valid? && e.summary.id == id
  }

  /** Events after which nothing may be known of this modem: a failed or oversized inventory,
      one that does not list this generation, or a result that is not transient. */
  ghost predicate Invalidates<T>(e: Event<T>, id: ModemId, generation: nat) {
    match e
    case InventoryFails => true
    case Inventory(summaries) => |summaries| > 64 || !LastListed(summaries, id, generation)
    case Answer(reply, summary, _) => summary.id == id && reply.Other?
  }

  /** The last summary of this modem gives this generation. */
  ghost predicate LastListed(summaries: seq<Summary>, id: ModemId, generation: nat) {
    exists i :: ListedAt(summaries, i, id, generation)
  }

  ghost predicate ListedAt(summaries: seq<Summary>, i: int, id: ModemId, generation: nat) {
    0 <= i < |summaries| && summaries[i] == Summary(id, generation) && forall j | i < j < |summaries| :: summaries[j].id != id
  }

  lemma {:induction false} ListedIff(summaries: seq<Summary>, id: ModemId, generation: nat)
    ensures Listed(summaries, id) == Some(generation) <==> LastListed(summaries, id, generation)
  {
    if summaries != [] {
      var last := |summaries| - 1;
      if summaries[last].id == id {
        assert ListedAt(summaries, last, id, summaries[last].generation);
      } else {
        ListedIff(summaries[..last], id, generation);
        if i :| ListedAt(summaries, i, id, generation) { assert ListedAt(summaries[..last], i, id, generation); }
        if i :| ListedAt(summaries[..last], i, id, generation) { assert ListedAt(summaries, i, id, generation); }
      }
    }
  }

  /** The entry for `id` stands for the success at position i and nothing since took it away. */
  ghost predicate Stands<T>(events: seq<Event<T>>, n: nat, id: ModemId, e: Entry<T>, i: nat)
    requires n <= |events|
  {
    && i < n && IsSuccess(events[i], id)
    && e == Entry(events[i].summary.generation, events[i].now, events[i].reply.topology)
    && forall j | i < j < n :: !IsSuccess(events[j], id) && !Invalidates(events[j], id, e.generation)
  }

  /** An entry that survives an event was put there by it or has survived it. */
  lemma EntryOrigin<T(!new)>(cache: Cache<T>, e: Event<T>, after: Cache<T>, shown: Option<T>, id: ModemId)
    requires Next(cache, e, after, shown) && id in after
    ensures if IsSuccess(e, id) then after[id] == Entry(e.summary.generation, e.now, e.reply.topology)
            else id in cache && after[id] == cache[id] && !Invalidates(e, id, cache[id].generation)
  {
    if e.Inventory? && id in cache { ListedIff(e.summaries, id, cache[id].generation); }
  }

  lemma {:induction false} EntriesStand<T(!new)>(caches: seq<Cache<T>>, events: seq<Event<T>>, shown: seq<Option<T>>, k: nat, id: ModemId)
    returns (i: nat)
    requires History(caches, events, shown) && k <= |events| && id in caches[k]
    ensures Stands(events, k, id, caches[k][id], i)
  {
    EntryOrigin(caches[k - 1], events[k - 1], caches[k], shown[k - 1], id);
    if IsSuccess(events[k - 1], id) {
      i := k - 1;
    } else {
      i := EntriesStand(caches, events, shown, k - 1, id);
    }
  }

  /** Whatever is shown in answer to a failed query is the topology of the latest success for
      the same modem and generation, at most 30 s old, with no other result, inventory
      failure or removal since. */
  lemma ShownIsLatestSuccess<T(!new)>(caches: seq<Cache<T>>, events: seq<Event<T>>, shown: seq<Option<T>>, k: nat) returns (i: nat)
    requires History(caches, events, shown) && k < |events|
    requires events[k].Answer? && !events[k].reply.Valid? && shown[k].Some?
    ensures var id := events[k].summary.id;
            && i < k && IsSuccess(events[i], id) && events[i].reply.topology == shown[k].value
            && events[i].summary == events[k].summary
            && 0 <= events[k].now - events[i].now <= TTL_MS
            && forall j | i < j < k :: !IsSuccess(events[j], id) && !Invalidates(events[j], id, events[k].summary.generation)
  {
    assert Next(caches[k], events[k], caches[k + 1], shown[k]);
    i := EntriesStand(caches, events, shown, k, events[k].summary.id);
  }

  // ----- exactly how long an entry is shown -----------------------------------------------------------

  /** A transient failure for this modem that comes too late, or for another generation. */
  predicate Outlives<T>(e: Event<T>, id: ModemId, generation: nat, receivedAt: int) {
    && e.Answer? && e.reply.Transient? && e.summary.id == id
    && (e.summary.generation != generation || e.now < receivedAt || e.now > receivedAt + 30000)
  }

  /** A success of a modem without entry drops the entry for `id`: only from a full cache, and
      only if no other entry is older. */
  ghost predicate Evicts<T>(cache: Cache<T>, e: Event<T>, after: Cache<T>, id: ModemId) {
    && e.Answer? && e.reply.Valid? && e.summary.id !in cache && |cache| >= 64
    && IsOldest(cache, id) && id !in after
  }

  /** An entry leaves the cache in exactly three ways. */
  lemma EntryFate<T(!new)>(cache: Cache<T>, e: Event<T>, after: Cache<T>, shown: Option<T>, id: ModemId)
    requires Next(cache, e, after, shown) && id in cache && !IsSuccess(e, id)
    ensures id in after <==>
            !Invalidates(e, id, cache[id].generation) && !Outlives(e, id, cache[id].generation, cache[id].receivedAt)
            && !Evicts(cache, e, after, id)
    ensures id in after ==> after[id] == cache[id]
  {
    if e.Inventory? { ListedIff(e.summaries, id, cache[id].generation); }
  }

  /** Position i is a success for the modem of `s`, and from there up to n nothing replaced,
      invalidated, outlived or evicted its entry. */
  ghost predicate Lasts<T>(caches: seq<Cache<T>>, events: seq<Event<T>>, n: nat, s: Summary, i: nat)
    requires n <= |events| < |caches|
  {
    && i < n && IsSuccess(events[i], s.id) && events[i].summary == s
    && forall j | i < j < n ::
         && !IsSuccess(events[j], s.id) && !Invalidates(events[j], s.id, s.generation)
         && !Outlives(events[j], s.id, s.generation, events[i].now) && !Evicts(caches[j], events[j], caches[j + 1], s.id)
  }

  lemma {:induction false} LastingEntry<T(!new)>(
      caches: seq<Cache<T>>, events: seq<Event<T>>, shown: seq<Option<T>>, n: nat, s: Summary, i: nat)
    requires History(caches, events, shown) && n <= |events| && Lasts(caches, events, n, s, i)
    ensures s.id in caches[n] && caches[n][s.id] == Entry(s.generation, events[i].now, events[i].reply.topology)
  {
    assert Next(caches[n - 1], events[n - 1], caches[n], shown[n - 1]);
    if i < n - 1 {
      LastingEntry(caches, events, shown, n - 1, s, i);
      EntryFate(caches[n - 1], events[n - 1], caches[n], shown[n - 1], s.id);
    }
  }

  lemma {:induction false} EntryLasts<T(!new)>(
      caches: seq<Cache<T>>, events: seq<Event<T>>, shown: seq<Option<T>>, n: nat, s: Summary) returns (i: nat)
    requires History(caches, events, shown) && n <= |events| && s.id in caches[n] && caches[n][s.id].generation == s.generation
    ensures Lasts(caches, events, n, s, i) && caches[n][s.id] == Entry(s.generation, events[i].now, events[i].reply.topology)
  {
    assert Next(caches[n - 1], events[n - 1], caches[n], shown[n - 1]);
    EntryOrigin(caches[n - 1], events[n - 1], caches[n], shown[n - 1], s.id);
    if IsSuccess(events[n - 1], s.id) {
      i := n - 1;
    } else {
      i := EntryLasts(caches, events, shown, n - 1, s);
      EntryFate(caches[n - 1], events[n - 1], caches[n], shown[n - 1], s.id);
    }
  }

  /** A transient failure is answered with a topology exactly if that is the one of a success
      for the same modem and generation, at most 30 s before, which nothing has replaced,
      invalidated, outlived or evicted. */
  lemma ShownIff<T(!new)>(caches: seq<Cache<T>>, events: seq<Event<T>>, shown: seq<Option<T>>, k: nat, topology: T)
    requires History(caches, events, shown) && k < |events| && events[k].Answer? && events[k].reply.Transient?
    ensures shown[k] == Some(topology) <==>
            exists i :: 0 <= i < k && Lasts(caches, events, k, events[k].summary, i) && events[i].reply.topology == topology
                        && 0 <= events[k].now - events[i].now <= 30000
  {
    var s := events[k].summary;
    assert Next(caches[k], events[k], caches[k + 1], shown[k]);
    if shown[k].Some? { var i := EntryLasts(caches, events, shown, k, s); }
    if i :| 0 <= i < k && Lasts(caches, events, k, s, i) && events[i].reply.topology == topology
            && 0 <= events[k].now - events[i].now <= 30000
    {
      LastingEntry(caches, events, shown, k, s, i);
    }
  }

  /** A modem that has no entry, evicted or not, gets one only by a new success. */
  lemma {:induction false} NoReturnWithoutSuccess<T(!new)>(
      caches: seq<Cache<T>>, events: seq<Event<T>>, shown: seq<Option<T>>, i: nat, k: nat, id: ModemId)
    requires History(caches, events, shown) && i <= k <= |events| && id !in caches[i] && id in caches[k]
    ensures exists j | i <= j < k :: IsSuccess(events[j], id)
  {
    EntryOrigin(caches[k - 1], events[k - 1], caches[k], shown[k - 1], id);
    if !IsSuccess(events[k - 1], id) { NoReturnWithoutSuccess(caches, events, shown, i, k - 1, id); }
  }

  lemma RememberedBounded<T(!new)>(cache: Cache<T>, after: Cache<T>, id: ModemId, e: Entry<T>)
    requires Remembered(cache, after, id, e) && |cache| <= MAX_ENTRIES
    ensures |after| <= MAX_ENTRIES
  {
    assert |after| == |after.Keys| && |cache| == |cache.Keys|;
    if id !in cache && |cache| >= MAX_ENTRIES {
      var victim :| IsOldest(cache, victim) && after == (cache - {victim})[id := e];
      assert after.Keys == cache.Keys - {victim} + {id} && |cache.Keys - {victim}| == |cache.Keys| - 1;
    } else {
      assert after.Keys == cache.Keys + {id};
    }
  }

  lemma SmallerBounded<T>(cache: Cache<T>, after: Cache<T>)
    requires after.Keys <= cache.Keys && |cache| <= MAX_ENTRIES
    ensures |after| <= MAX_ENTRIES
  {
    assert |after| == |after.Keys| && |cache| == |cache.Keys|;
    assert cache.Keys == after.Keys + (cache.Keys - after.Keys);
  }

  /** The cache never exceeds 64 entries. */
  lemma {:induction false} NeverOver64<T(!new)>(caches: seq<Cache<T>>, events: seq<Event<T>>, shown: seq<Option<T>>, k: nat)
    requires History(caches, events, shown) && k <= |events|
    ensures |caches[k]| <= MAX_ENTRIES
  {
    if k > 0 {
      NeverOver64(caches, events, shown, k - 1);
      var e := events[k - 1];
      if e.Answer? && e.reply.Valid? {
        RememberedBounded(caches[k - 1], caches[k], e.summary.id, Entry(e.summary.generation, e.now, e.reply.topology));
      } else {
        SmallerBounded(caches[k - 1], caches[k]);
      }
    }
  }
}
