/** Mutual exclusion of everything that talks to a modem, over every interleaving of the
    world in module Arbiter: exactly when a step breaks it, and that none does while no two
    live modem objects share a hardware slot. */
module ArbiterExclusion {
  import opened Common
  import opened LockTypes
  import opened Coordinator
  import opened Arbiter
  import CoordinatorRuns
  import CoordinatorTheorems

  // ----- who uses what --------------------------------------------------------------------

  /** Operation `o` is in flight on modem object `ref`. A status read is not counted. */
  predicate Uses(o: AnyOp, ref: ModemRef) {
    match o
    case StatusOp(_) => false
    case MutationOp(op) => op.job.original == ref || op.replacement == Some(ref)
    case _ => o.modem == ref
  }

  predicate TakesLock(o: AnyOp) {
    o.SmsOp? || o.AdvancedOp? || o.MutationOp?
  }

  function LockKind(o: AnyOp): MutationKind {
    match o
    case SmsOp(_) => SmsMutation
    case AdvancedOp(_) => AdvancedMutation
    case MutationOp(_) => L850Mutation
    case _ => NoMutation
  }

  function Token(id: OpId, o: AnyOp): Cancellable {
    if o.MutationOp? then Separate(id) else Shared(id)
  }

  // ----- the invariant ---------------------------------------------------------------------

  type Modems = map<ModemRef, Modem>
  type Ops = map<OpId, AnyOp>

  /** Every modem the operation uses exists; a locking operation holds its lock on each. */
  ghost predicate OpOk(ms: Modems, id: OpId, o: AnyOp) {
    && (forall ref | Uses(o, ref) :: ref in ms && UseOk(ms[ref], id, o))
    && (o.StatusOp? ==> o.modem in ms)
    && (o.MutationOp? ==> o.op.job.id == id && o.op.job.physdev != "")
  }

  ghost predicate UseOk(m: Modem, id: OpId, o: AnyOp) {
    && (TakesLock(o) ==> m.cancellable == Some(Token(id, o)))
    && (o.VoltageQuery? ==> m.generation == o.generation && (m.live ==> m.voltagePending))
    && (o.MutationOp? ==> m.physdev == Some(o.op.job.physdev))
  }

  /** Busy flag, kind and cancellable say the same thing, and a held lock has its holder. */
  ghost predicate LockOk(ops: Ops, ref: ModemRef, m: Modem) {
    && (m.busy <==> m.kind != NoMutation)
    && (m.busy <==> m.cancellable.Some?)
    && (m.cancellable.Some? ==> m.cancellable.value.op in ops && Holds(ops[m.cancellable.value.op], ref, m))
  }

  ghost predicate Holds(o: AnyOp, ref: ModemRef, m: Modem)
    requires m.cancellable.Some?
  {
    && TakesLock(o) && Uses(o, ref) && m.kind == LockKind(o)
    && m.cancellable.value == Token(m.cancellable.value.op, o)
  }

  predicate OnSlot(m: Modem, physdev: string) {
    m.live && m.physdev == Some(physdev)
  }

  /** Two operations share no modem object. */
  ghost predicate Disjoint(a: AnyOp, b: AnyOp) {
    forall ref | Uses(a, ref) :: !Uses(b, ref)
  }

  /** When `a` is a cell-lock change, `b` is none on the same slot and stays off every live
      object there, adopted or not. */
  ghost predicate OffSlot(ms: Modems, a: AnyOp, b: AnyOp) {
    a.MutationOp? ==>
      && (b.MutationOp? ==> a.op.job.physdev != b.op.job.physdev)
      && forall ref | ref in ms && OnSlot(ms[ref], a.op.job.physdev) :: !Uses(b, ref)
  }

  ghost predicate OpsOk(w: World) {
    forall id | id in w.ops :: OpOk(w.modems, id, w.ops[id])
  }

  ghost predicate LocksOk(w: World) {
    forall ref | ref in w.modems :: LockOk(w.ops, ref, w.modems[ref])
  }

  ghost predicate AllDisjoint(w: World) {
    forall a, b | a in w.ops && b in w.ops && a != b :: Disjoint(w.ops[a], w.ops[b])
  }

  ghost predicate AllOffSlot(w: World) {
    forall a, b | a in w.ops && b in w.ops && a != b :: OffSlot(w.modems, w.ops[a], w.ops[b])
  }

  /** Coordinator operations satisfy their own invariant; ended ones stay ended. */
  ghost predicate RunOk(o: AnyOp, now: int) {
    o.MutationOp? ==> o.op.outcome.None? && CoordinatorRuns.Inv(o.op, now)
  }

  ghost predicate DoneOk(op: Op, now: int) {
    op.outcome.Some? && CoordinatorRuns.Inv(op, now)
  }

  ghost predicate RunsOk(w: World) {
    && (forall id | id in w.ops :: RunOk(w.ops[id], w.now))
    && (forall id | id in w.done :: id !in w.ops && DoneOk(w.done[id], w.now))
  }

  ghost predicate GenerationsOk(w: World) {
    && w.nextGeneration <= MAX_UINT32
    && (forall a | a in w.modems :: 0 < w.modems[a].generation <= w.nextGeneration)
    && (forall a, b | a in w.modems && b in w.modems && a != b :: w.modems[a].generation != w.modems[b].generation)
  }

  /** Locks and users fit together, whatever the slots. */
  ghost predicate Core(w: World) {
    OpsOk(w) && LocksOk(w) && AllDisjoint(w)
  }

  ghost predicate WorldInv(w: World) {
    Core(w) && RunsOk(w) && AllOffSlot(w)
  }

  /** The environment assumption. */
  ghost predicate OnePerSlot(w: World) {
    forall a, b | a in w.modems && b in w.modems && a != b && w.modems[a].physdev.Some? && w.modems[a].physdev.value != "" ::
      !(w.modems[a].live && OnSlot(w.modems[b], w.modems[a].physdev.value))
  }

  // ----- steps that leave every lock alone ---------------------------------------------------

  /** Same operation up to its flags, phase and timers. */
  ghost predicate SameRole(o: AnyOp, p: AnyOp) {
    if o.MutationOp? then p.MutationOp? && p.op.job == o.op.job && p.op.replacement == o.op.replacement
    else p == o
  }

  /** A modem keeps everything but what its hardware reports. */
  ghost predicate SameHolder(m: Modem, n: Modem) {
    && n.busy == m.busy && n.kind == m.kind && n.cancellable == m.cancellable
    && n.physdev == m.physdev && n.generation == m.generation && (n.live ==> m.live && n.voltagePending == m.voltagePending)
  }

  ghost predicate Unlocked(m: Modem) {
    !m.busy && m.kind == NoMutation && m.cancellable.None?
  }

  ghost predicate CalmOps(ops: Ops, later: Ops) {
    later.Keys == ops.Keys && forall id | id in ops :: SameRole(ops[id], later[id])
  }

  ghost predicate CalmModems(ms: Modems, later: Modems) {
    && (forall ref | ref in ms :: ref in later && SameHolder(ms[ref], later[ref]))
    && (forall ref | ref in later && ref !in ms :: Unlocked(later[ref]))
  }

  lemma CalmOffSlot(ms: Modems, later: Modems, a: AnyOp, b: AnyOp, c: AnyOp, d: AnyOp, idB: OpId)
    requires OffSlot(ms, a, b) && SameRole(a, c) && SameRole(b, d) && CalmModems(ms, later) && OpOk(ms, idB, b)
    ensures OffSlot(later, c, d)
  {
    if c.MutationOp? {
      forall ref | ref in later && OnSlot(later[ref], c.op.job.physdev) ensures !Uses(d, ref) {
        assert Uses(d, ref) ==> Uses(b, ref);
        if ref in ms { assert SameHolder(ms[ref], later[ref]); }
      }
    }
  }

  lemma CalmLock(ops: Ops, later: Ops, ref: ModemRef, m: Modem, n: Modem)
    requires LockOk(ops, ref, m) && SameHolder(m, n) && CalmOps(ops, later)
    ensures LockOk(later, ref, n)
  {
    if m.cancellable.Some? {
      var id := m.cancellable.value.op;
      assert SameRole(ops[id], later[id]);
    }
  }

  lemma CalmDisjoint(w: World, v: World)
    requires CalmOps(w.ops, v.ops) && AllDisjoint(w)
    ensures AllDisjoint(v)
  {
    forall a, b | a in v.ops && b in v.ops && a != b ensures Disjoint(v.ops[a], v.ops[b]) {
      assert Disjoint(w.ops[a], w.ops[b]) && SameRole(w.ops[a], v.ops[a]) && SameRole(w.ops[b], v.ops[b]);
      forall ref | Uses(v.ops[a], ref) ensures !Uses(v.ops[b], ref) { assert Uses(w.ops[a], ref); }
    }
  }

  lemma CalmKeeps(w: World, v: World)
    requires Core(w) && CalmOps(w.ops, v.ops) && CalmModems(w.modems, v.modems)
    ensures Core(v) && (AllOffSlot(w) ==> AllOffSlot(v))
  {
    forall id | id in v.ops ensures OpOk(v.modems, id, v.ops[id]) {
    }
    forall ref | ref in v.modems ensures LockOk(v.ops, ref, v.modems[ref]) {
      if ref in w.modems { CalmLock(w.ops, v.ops, ref, w.modems[ref], v.modems[ref]); }
    }
    CalmDisjoint(w, v);
    if AllOffSlot(w) {
      forall a, b | a in v.ops && b in v.ops && a != b ensures OffSlot(v.modems, v.ops[a], v.ops[b]) {
        CalmOffSlot(w.modems, v.modems, w.ops[a], w.ops[b], v.ops[a], v.ops[b], b);
      }
    }
  }

  /** Events of the environment change no role and no lock. */
  ghost predicate Outside(e: Arbiter.Event) {
    e.Advance? || e.Plug? || e.Unplug? || e.Observe? || e.Expire? || e.Disconnect? || e.Reconnect?
  }

  lemma OutsideIsCalm(w: World, e: Arbiter.Event)
    requires Outside(e) && Arbiter.Enabled(w, e)
    ensures CalmOps(w.ops, Arbiter.Step(w, e).ops) && CalmModems(w.modems, Arbiter.Step(w, e).modems)
  {
  }

  // ----- admission ----------------------------------------------------------------------------

  ghost predicate Free(w: World, ref: ModemRef) {
    forall id | id in w.ops :: !Uses(w.ops[id], ref)
  }

  /** No cell-lock change is under way on the slot. */
  ghost predicate SlotQuiet(ops: Ops, physdev: string) {
    forall id | id in ops && ops[id].MutationOp? :: ops[id].op.job.physdev != physdev
  }

  /** A live modem that nothing uses. */
  ghost predicate Idle(w: World, ref: ModemRef) {
    && ref in w.modems && Free(w, ref)
    && w.modems[ref].live && Unlocked(w.modems[ref]) && !w.modems[ref].voltagePending
    && w.modems[ref].physdev.Some? && w.modems[ref].physdev.value != ""
    && SlotQuiet(w.ops, w.modems[ref].physdev.value)
  }

  lemma UserShows(w: World, ref: ModemRef, id: OpId)
    requires OpsOk(w) && LocksOk(w) && id in w.ops && Uses(w.ops[id], ref) && ref in w.modems && w.modems[ref].live
    ensures w.modems[ref].busy || w.modems[ref].voltagePending || ActiveScan(w, ref) || ActiveCarrier(w, ref)
  {
    assert OpOk(w.modems, id, w.ops[id]);
    assert UseOk(w.modems[ref], id, w.ops[id]);
    assert LockOk(w.ops, ref, w.modems[ref]);
  }

  /** Each operation that is using a live modem makes every counted admission fail. */
  lemma AdmittedIsIdle(w: World, ref: ModemRef, generation: nat, ask: Ask)
    requires OpsOk(w) && LocksOk(w) && !ask.AskStatus? && Admits(w, ref, generation, ask)
    ensures Idle(w, ref)
  {
    assert LockOk(w.ops, ref, w.modems[ref]);
    forall id | id in w.ops ensures !Uses(w.ops[id], ref) {
      if Uses(w.ops[id], ref) { UserShows(w, ref, id); }
    }
  }

  /** Operation `o` uses exactly `ref`, whose modem becomes `m` when it starts. */
  ghost predicate StartsOn(id: OpId, o: AnyOp, ref: ModemRef, was: Modem, m: Modem) {
    && (forall r | Uses(o, r) :: r == ref) && !o.StatusOp?
    && Uses(o, ref) && UseOk(m, id, o)
    && m.generation == was.generation && m.physdev == was.physdev && m.live
    && (if TakesLock(o) then m.busy && m.kind == LockKind(o) else Unlocked(m))
    && (o.MutationOp? ==> o.op.job.id == id && m.physdev == Some(o.op.job.physdev))
  }

  lemma LocksAfterStart(w: World, id: OpId, ref: ModemRef, m: Modem, o: AnyOp)
    requires LocksOk(w) && id !in w.ops && Idle(w, ref) && StartsOn(id, o, ref, w.modems[ref], m)
    ensures LocksOk(Put(w, ref, m, id, o))
  {
    var v := Put(w, ref, m, id, o);
    forall r | r in v.modems ensures LockOk(v.ops, r, v.modems[r]) {
      if r != ref { assert LockOk(w.ops, r, w.modems[r]); }
    }
  }

  lemma OffSlotAfterStart(w: World, id: OpId, ref: ModemRef, m: Modem, o: AnyOp)
    requires AllOffSlot(w) && id !in w.ops && Idle(w, ref) && StartsOn(id, o, ref, w.modems[ref], m)
    requires o.MutationOp? ==> OnePerSlot(w)
    ensures AllOffSlot(Put(w, ref, m, id, o))
  {
    var v := Put(w, ref, m, id, o);
    forall a, b | a in v.ops && b in v.ops && a != b ensures OffSlot(v.modems, v.ops[a], v.ops[b]) {
      if a != id && b != id { assert OffSlot(w.modems, w.ops[a], w.ops[b]) && !Uses(w.ops[b], ref); }
      if a == id { assert !Uses(w.ops[b], ref); }
      if b == id { assert !Uses(w.ops[a], ref); }
    }
  }

  /** Adding an operation that uses one idle modem. */
  lemma StartKeeps(w: World, id: OpId, ref: ModemRef, m: Modem, o: AnyOp)
    requires Core(w) && id !in w.ops && Idle(w, ref) && StartsOn(id, o, ref, w.modems[ref], m)
    ensures Core(Put(w, ref, m, id, o))
    ensures AllOffSlot(w) && (o.MutationOp? ==> OnePerSlot(w)) ==> AllOffSlot(Put(w, ref, m, id, o))
  {
    var v := Put(w, ref, m, id, o);
    forall k | k in v.ops ensures OpOk(v.modems, k, v.ops[k]) {
      if k != id { assert OpOk(w.modems, k, w.ops[k]) && !Uses(w.ops[k], ref); }
    }
    LocksAfterStart(w, id, ref, m, o);
    forall a, b | a in v.ops && b in v.ops && a != b ensures Disjoint(v.ops[a], v.ops[b]) {
      if a != id && b != id { assert Disjoint(w.ops[a], w.ops[b]); }
      if a == id { assert !Uses(w.ops[b], ref); }
      if b == id { assert !Uses(w.ops[a], ref); }
    }
    if AllOffSlot(w) && (o.MutationOp? ==> OnePerSlot(w)) { OffSlotAfterStart(w, id, ref, m, o); }
  }

  lemma StatusKeeps(w: World, id: OpId, ref: ModemRef)
    requires Core(w) && id !in w.ops && ref in w.modems
    ensures var v := w.(ops := w.ops[id := StatusOp(ref)]); Core(v) && (AllOffSlot(w) ==> AllOffSlot(v))
  {
    var v := w.(ops := w.ops[id := StatusOp(ref)]);
    forall k | k in v.ops ensures OpOk(v.modems, k, v.ops[k]) {
      if k != id { assert OpOk(w.modems, k, w.ops[k]); }
    }
    forall r | r in v.modems ensures LockOk(v.ops, r, v.modems[r]) { assert LockOk(w.ops, r, w.modems[r]); }
    forall a, b | a in v.ops && b in v.ops && a != b
      ensures Disjoint(v.ops[a], v.ops[b]) && (AllOffSlot(w) ==> OffSlot(v.modems, v.ops[a], v.ops[b]))
    {
      if a != id && b != id { assert Disjoint(w.ops[a], w.ops[b]); }
    }
  }

  /** What starting an operation makes of an idle modem, as one update. */
  lemma StartIsPut(w: World, id: OpId, ref: ModemRef, ask: Ask) returns (m: Modem, o: AnyOp)
    requires Idle(w, ref) && !ask.AskStatus?
    ensures StartsOn(id, o, ref, w.modems[ref], m) && (o.MutationOp? <==> ask.AskMutation?)
    ensures Start(w, id, ref, ask) == Put(w, ref, m, id, o)
  {
    m, o := Start(w, id, ref, ask).modems[ref], Start(w, id, ref, ask).ops[id];
    assert ask.AskScan? || ask.AskCarrier? ==> w.modems[ref := m] == w.modems;
  }

  lemma AskKeeps(w: World, id: OpId, ref: ModemRef, generation: nat, ask: Ask)
    requires Core(w) && id !in w.ops && ref in w.modems && Admits(w, ref, generation, ask)
    ensures Core(Start(w, id, ref, ask))
    ensures AllOffSlot(w) && OnePerSlot(w) ==> AllOffSlot(Start(w, id, ref, ask))
  {
    if ask.AskStatus? {
      StatusKeeps(w, id, ref);
    } else {
      AdmittedIsIdle(w, ref, generation, ask);
      var m, o := StartIsPut(w, id, ref, ask);
      StartKeeps(w, id, ref, m, o);
    }
  }

  // ----- completion ---------------------------------------------------------------------------

  /** Removing operation `id` after it freed the locks it held. */
  ghost predicate Frees(w: World, v: World, id: OpId) {
    && id in w.ops && v.ops == w.ops - {id} && v.modems.Keys == w.modems.Keys
    && (forall ref | ref in w.modems :: FreesAt(w.modems[ref], v.modems[ref], w.ops[id], ref))
  }

  ghost predicate FreesAt(m: Modem, n: Modem, o: AnyOp, ref: ModemRef) {
    && n.generation == m.generation && n.physdev == m.physdev && n.live == m.live
    && (if Uses(o, ref) && TakesLock(o) then Unlocked(n)
        else n.busy == m.busy && n.kind == m.kind && n.cancellable == m.cancellable)
    && (!Uses(o, ref) ==> n.voltagePending == m.voltagePending)
  }

  lemma EndKeeps(w: World, v: World, id: OpId)
    requires Core(w) && Frees(w, v, id)
    ensures Core(v) && (AllOffSlot(w) ==> AllOffSlot(v))
  {
    forall k | k in v.ops ensures OpOk(v.modems, k, v.ops[k]) {
      assert OpOk(w.modems, k, w.ops[k]) && Disjoint(w.ops[id], w.ops[k]);
    }
    forall ref | ref in v.modems ensures LockOk(v.ops, ref, v.modems[ref]) {}
    forall a, b | a in v.ops && b in v.ops && a != b ensures Disjoint(v.ops[a], v.ops[b]) {
      assert Disjoint(w.ops[a], w.ops[b]);
    }
    if AllOffSlot(w) {
      forall a, b | a in v.ops && b in v.ops && a != b ensures OffSlot(v.modems, v.ops[a], v.ops[b]) {
        EndOffSlot(w, v, id, a, b);
      }
    }
  }

  lemma EndOffSlot(w: World, v: World, id: OpId, a: OpId, b: OpId)
    requires AllOffSlot(w) && Frees(w, v, id) && a in v.ops && b in v.ops && a != b
    ensures OffSlot(v.modems, v.ops[a], v.ops[b])
  {
    assert OffSlot(w.modems, w.ops[a], w.ops[b]);
    forall ref | ref in v.modems ensures v.modems[ref].live == w.modems[ref].live && v.modems[ref].physdev == w.modems[ref].physdev {
      assert FreesAt(w.modems[ref], v.modems[ref], w.ops[id], ref);
    }
  }

  lemma FinishFrees(w: World, id: OpId)
    requires OpsOk(w) && LocksOk(w) && Arbiter.Enabled(w, Finish(id))
    ensures Frees(w, End(w, id), id)
  {
    var v := End(w, id);
    assert OpOk(w.modems, id, w.ops[id]);
    assert Uses(w.ops[id], w.ops[id].modem) || w.ops[id].StatusOp?;
    assert LockOk(w.ops, w.ops[id].modem, w.modems[w.ops[id].modem]);
  }

  // ----- coordinator callbacks ------------------------------------------------------------------

  lemma CallbackView(w: World, id: OpId, input: Input)
    requires RunsOk(w) && Arbiter.Enabled(w, Callback(id, input))
    ensures var v := ViewOf(w, w.ops[id].op);
            var u := Coordinator.Step(v, Ctx(w.now, w.online), input);
            && CoordinatorTheorems.LockEffect(v, u, input, w.now)
            && CoordinatorRuns.Inv(u.op, w.now)
  {
    assert RunOk(w.ops[id], w.now);
    var v := ViewOf(w, w.ops[id].op);
    CoordinatorTheorems.StepLocks(v, Ctx(w.now, w.online), input);
    CoordinatorRuns.StepKeepsInv(v, Ctx(w.now, w.online), input);
  }

  /** `u` is what a callback of operation `id` makes of its view. */
  ghost predicate Result(w: World, id: OpId, u: View) {
    && id in w.ops && w.ops[id].MutationOp? && RefsKnown(w, w.ops[id])
    && u.op.job == w.ops[id].op.job && CoordinatorRuns.Inv(u.op, w.now)
  }

  lemma QuietIsCalm(w: World, id: OpId, u: View)
    requires Result(w, id, u) && CoordinatorTheorems.Quiet(ViewOf(w, w.ops[id].op), u)
    ensures PutView(w, id, u) == w.(ops := w.ops[id := MutationOp(u.op)])
  {
    assert PutView(w, id, u).modems == w.modems;
  }

  lemma QuietRoles(w: World, id: OpId, u: View)
    requires Result(w, id, u) && u.op.replacement == w.ops[id].op.replacement
    ensures CalmOps(w.ops, w.ops[id := MutationOp(u.op)]) && CalmModems(w.modems, w.modems)
  {
  }

  lemma ReleaseFrees(w: World, id: OpId, u: View)
    requires OpsOk(w) && LocksOk(w) && Result(w, id, u)
    requires CoordinatorTheorems.Releases(ViewOf(w, w.ops[id].op), u, w.now)
    ensures Frees(w, PutView(w, id, u), id)
  {
    var v := PutView(w, id, u);
    var o := w.ops[id];
    forall ref | ref in w.modems ensures FreesAt(w.modems[ref], v.modems[ref], o, ref) {
      ReleasedModems(w, id, u, ref);
      if Uses(o, ref) {
        assert OpOk(w.modems, id, o) && LockOk(w.ops, ref, w.modems[ref]);
        HeldReleases(w, id, ref);
      }
    }
    assert v.modems.Keys == w.modems.Keys;
  }

  lemma HeldReleases(w: World, id: OpId, ref: ModemRef)
    requires id in w.ops && w.ops[id].MutationOp? && ref in w.modems && Uses(w.ops[id], ref)
    requires OpOk(w.modems, id, w.ops[id]) && LockOk(w.ops, ref, w.modems[ref])
    ensures FreesAt(w.modems[ref], Release(w.modems[ref], w.ops[id].op.setDispatched, w.now), w.ops[id], ref)
  {
    assert UseOk(w.modems[ref], id, w.ops[id]);
  }

  lemma ReleasedModems(w: World, id: OpId, u: View, ref: ModemRef)
    requires Result(w, id, u) && CoordinatorTheorems.Releases(ViewOf(w, w.ops[id].op), u, w.now) && ref in w.modems
    ensures ref in PutView(w, id, u).modems
    ensures PutView(w, id, u).modems[ref] ==
            if Uses(w.ops[id], ref) then Release(w.modems[ref], w.ops[id].op.setDispatched, w.now) else w.modems[ref]
  {
  }

  /** Operation `id` adopts the free object `ref` on its slot. */
  ghost predicate Adoption(w: World, v: World, id: OpId, ref: ModemRef, op: Op) {
    && id in w.ops && w.ops[id].MutationOp? && w.ops[id].op.replacement.None?
    && op.job == w.ops[id].op.job && op.job.id == id && op.replacement == Some(ref)
    && ref in w.modems && OnSlot(w.modems[ref], op.job.physdev) && ref != op.job.original
    && Unlocked(w.modems[ref])
    && v.modems == w.modems[ref := Acquire(w.modems[ref], id)] && v.ops == w.ops[id := MutationOp(op)]
  }

  /** No other operation uses the object about to be adopted. */
  ghost predicate FreeFor(w: World, id: OpId, ref: ModemRef) {
    forall k | k in w.ops && k != id :: !Uses(w.ops[k], ref)
  }

  lemma AdoptKeepsOp(w: World, v: World, id: OpId, ref: ModemRef, op: Op, k: OpId)
    requires OpsOk(w) && FreeFor(w, id, ref) && Adoption(w, v, id, ref, op) && k in w.ops
    ensures OpOk(v.modems, k, v.ops[k])
  {
    assert OpOk(w.modems, k, w.ops[k]);
    if k == id {
      forall r | Uses(v.ops[id], r) ensures r in v.modems && UseOk(v.modems[r], id, v.ops[id]) {
        if r != ref { assert Uses(w.ops[id], r) && UseOk(w.modems[r], id, w.ops[id]); }
      }
    }
  }

  lemma AdoptKeepsLock(w: World, v: World, id: OpId, ref: ModemRef, op: Op, r: ModemRef)
    requires LocksOk(w) && Adoption(w, v, id, ref, op) && r in w.modems
    ensures LockOk(v.ops, r, v.modems[r])
  {
    assert LockOk(w.ops, r, w.modems[r]);
  }

  lemma AdoptKeepsDisjoint(w: World, v: World, id: OpId, ref: ModemRef, op: Op, a: OpId, b: OpId)
    requires AllDisjoint(w) && FreeFor(w, id, ref) && Adoption(w, v, id, ref, op) && a in w.ops && b in w.ops && a != b
    ensures Disjoint(v.ops[a], v.ops[b])
  {
    assert Disjoint(w.ops[a], w.ops[b]);
    forall r | Uses(v.ops[a], r) ensures !Uses(v.ops[b], r) {
      if r != ref { assert Uses(w.ops[a], r); }
    }
  }

  lemma AdoptKeepsOffSlot(w: World, v: World, id: OpId, ref: ModemRef, op: Op, a: OpId, b: OpId)
    requires AllOffSlot(w) && FreeFor(w, id, ref) && Adoption(w, v, id, ref, op) && a in w.ops && b in w.ops && a != b
    ensures OffSlot(v.modems, v.ops[a], v.ops[b])
  {
    assert OffSlot(w.modems, w.ops[a], w.ops[b]);
    if w.ops[a].MutationOp? {
      forall r | r in v.modems && OnSlot(v.modems[r], w.ops[a].op.job.physdev) ensures !Uses(v.ops[b], r) {
        if r != ref { assert OnSlot(w.modems[r], w.ops[a].op.job.physdev); }
      }
    }
  }

  lemma AdoptionKeeps(w: World, v: World, id: OpId, ref: ModemRef, op: Op)
    requires Core(w) && FreeFor(w, id, ref) && Adoption(w, v, id, ref, op)
    ensures Core(v) && (AllOffSlot(w) ==> AllOffSlot(v))
  {
    forall k | k in v.ops ensures OpOk(v.modems, k, v.ops[k]) { AdoptKeepsOp(w, v, id, ref, op, k); }
    forall r | r in v.modems ensures LockOk(v.ops, r, v.modems[r]) { AdoptKeepsLock(w, v, id, ref, op, r); }
    forall a, b | a in v.ops && b in v.ops && a != b ensures Disjoint(v.ops[a], v.ops[b]) {
      AdoptKeepsDisjoint(w, v, id, ref, op, a, b);
    }
    if AllOffSlot(w) {
      forall a, b | a in v.ops && b in v.ops && a != b ensures OffSlot(v.modems, v.ops[a], v.ops[b]) {
        AdoptKeepsOffSlot(w, v, id, ref, op, a, b);
      }
    }
  }

  /** What an adopting callback does to the world, whatever else holds. */
  lemma AdoptionPuts(w: World, id: OpId, u: View, input: Input)
    requires RunsOk(w) && Arbiter.Enabled(w, Callback(id, input)) && Result(w, id, u)
    requires CoordinatorTheorems.Adopts(ViewOf(w, w.ops[id].op), u, input)
    ensures var ref := input.found.ref;
            && Candidate(w, w.ops[id].op, ref) && w.ops[id].op.replacement.None? && !w.modems[ref].busy
            && PutView(w, id, u) == w.(modems := w.modems[ref := Acquire(w.modems[ref], u.op.job.id)],
                                       ops := w.ops[id := MutationOp(u.op)])
  {
    assert RunOk(w.ops[id], w.now);
    assert Candidate(w, w.ops[id].op, input.found.ref);
    var ref := input.found.ref;
    assert w.modems[w.ops[id].op.job.original := w.modems[w.ops[id].op.job.original]] == w.modems;
  }

  lemma AdoptionHappens(w: World, id: OpId, u: View, input: Input)
    requires OpsOk(w) && LocksOk(w) && RunsOk(w) && Arbiter.Enabled(w, Callback(id, input)) && Result(w, id, u)
    requires CoordinatorTheorems.Adopts(ViewOf(w, w.ops[id].op), u, input)
    ensures Adoption(w, PutView(w, id, u), id, input.found.ref, u.op)
  {
    AdoptionPuts(w, id, u, input);
    assert OpOk(w.modems, id, w.ops[id]) && LockOk(w.ops, input.found.ref, w.modems[input.found.ref]);
  }

  // ----- exactly when a step breaks exclusion ---------------------------------------------------

  /** The poll of a change that waits for its slot finds one object there, not busy. */
  ghost predicate Adopting(w: World, e: Arbiter.Event) {
    && e.Callback? && e.id in w.ops && w.ops[e.id].MutationOp? && e.input.PollFires? && e.input.found.One?
    && !e.input.found.modem.busy
    && var op := w.ops[e.id].op; op.phase == Reprobe && !op.timedOut && !op.transportLost
  }

  /** ... and some other operation is using that object. */
  ghost predicate Overlaps(w: World, e: Arbiter.Event) {
    Adopting(w, e) && !FreeFor(w, e.id, e.input.found.ref)
  }

  lemma AdoptingIff(w: World, id: OpId, input: Input)
    requires Arbiter.Enabled(w, Callback(id, input))
    ensures var v := ViewOf(w, w.ops[id].op);
            Adopting(w, Callback(id, input)) <==>
            CoordinatorTheorems.Adopts(v, Coordinator.Step(v, Ctx(w.now, w.online), input), input)
  {
    var v := ViewOf(w, w.ops[id].op);
    if input.PollFires? && v.op.phase == Reprobe && input.found.One? && !input.found.modem.busy {
      CoordinatorTheorems.AdoptedLocks(v, Ctx(w.now, w.online), input.found);
    }
  }

  lemma CallbackKeeps(w: World, id: OpId, input: Input)
    requires Core(w) && RunsOk(w) && Arbiter.Enabled(w, Callback(id, input)) && !Overlaps(w, Callback(id, input))
    ensures Core(Arbiter.Step(w, Callback(id, input)))
    ensures AllOffSlot(w) ==> AllOffSlot(Arbiter.Step(w, Callback(id, input)))
  {
    CallbackView(w, id, input);
    AdoptingIff(w, id, input);
    var v := ViewOf(w, w.ops[id].op);
    var u := Coordinator.Step(v, Ctx(w.now, w.online), input);
    if CoordinatorTheorems.Quiet(v, u) {
      QuietIsCalm(w, id, u);
      QuietRoles(w, id, u);
      CalmKeeps(w, w.(ops := w.ops[id := MutationOp(u.op)]));
    } else if CoordinatorTheorems.Adopts(v, u, input) {
      AdoptionHappens(w, id, u, input);
      AdoptionKeeps(w, PutView(w, id, u), id, input.found.ref, u.op);
    } else {
      ReleaseFrees(w, id, u);
      EndKeeps(w, PutView(w, id, u), id);
    }
  }

  lemma StepKeepsCore(w: World, e: Arbiter.Event)
    requires Core(w) && RunsOk(w) && Arbiter.Enabled(w, e) && !Overlaps(w, e)
    ensures Core(Arbiter.Step(w, e))
    ensures AllOffSlot(w) && OnePerSlot(w) ==> AllOffSlot(Arbiter.Step(w, e))
  {
    if Outside(e) {
      OutsideIsCalm(w, e);
      CalmKeeps(w, Arbiter.Step(w, e));
    } else if e.Finish? {
      FinishFrees(w, e.id);
      EndKeeps(w, Arbiter.Step(w, e), e.id);
    } else if e.Callback? {
      CallbackKeeps(w, e.id, e.input);
    } else if Admits(w, e.ref, e.generation, e.ask) {
      AskKeeps(w, e.id, e.ref, e.generation, e.ask);
    }
  }

  /** At most one counted operation per modem object, and the three lock fields agree. */
  ghost predicate Exclusive(w: World) {
    && (forall a, b, ref | a in w.ops && b in w.ops && Uses(w.ops[a], ref) && Uses(w.ops[b], ref) :: a == b)
    && (forall ref | ref in w.modems :: FieldsAgree(w.modems[ref]))
    && (forall ref, id | ref in w.modems && id in w.ops && TakesLock(w.ops[id]) && Uses(w.ops[id], ref) ::
          w.modems[ref].busy && w.modems[ref].kind == LockKind(w.ops[id]))
  }

  ghost predicate FieldsAgree(m: Modem) {
    (m.busy <==> m.kind != NoMutation) && (m.busy <==> m.cancellable.Some?)
  }

  lemma CoreExcludes(w: World)
    requires Core(w)
    ensures Exclusive(w)
  {
    forall a, b, ref | a in w.ops && b in w.ops && Uses(w.ops[a], ref) && Uses(w.ops[b], ref) ensures a == b {
      assert a != b ==> Disjoint(w.ops[a], w.ops[b]);
    }
    forall ref, id | ref in w.modems && id in w.ops && TakesLock(w.ops[id]) && Uses(w.ops[id], ref)
      ensures w.modems[ref].busy && w.modems[ref].kind == LockKind(w.ops[id])
    {
      HolderIsOwner(w, id, ref);
      assert LockOk(w.ops, ref, w.modems[ref]);
    }
  }

  /** Two operations use one modem object. */
  ghost predicate SharedBy(w: World, a: OpId, b: OpId, ref: ModemRef) {
    a != b && a in w.ops && b in w.ops && Uses(w.ops[a], ref) && Uses(w.ops[b], ref)
  }

  lemma OverlapBreaks(w: World, e: Arbiter.Event)
    requires RunsOk(w) && Arbiter.Enabled(w, e) && Overlaps(w, e)
    ensures !Exclusive(Arbiter.Step(w, e)) && exists k :: SharedBy(Arbiter.Step(w, e), k, e.id, e.input.found.ref)
  {
    CallbackView(w, e.id, e.input);
    AdoptingIff(w, e.id, e.input);
    var v := ViewOf(w, w.ops[e.id].op);
    var u := Coordinator.Step(v, Ctx(w.now, w.online), e.input);
    AdoptionPuts(w, e.id, u, e.input);
    var k :| k in w.ops && k != e.id && Uses(w.ops[k], e.input.found.ref);
    var after := Arbiter.Step(w, e);
    assert SharedBy(after, k, e.id, e.input.found.ref);
  }

  /** From a state in which locks and users fit together, a step leaves the modems exclusive
      exactly if it is not the adoption of an object that another operation is using; and then
      locks and users still fit together. */
  lemma StepExcludesIff(w: World, e: Arbiter.Event)
    requires Core(w) && RunsOk(w) && Arbiter.Enabled(w, e)
    ensures Exclusive(Arbiter.Step(w, e)) <==> !Overlaps(w, e)
    ensures !Overlaps(w, e) ==> Core(Arbiter.Step(w, e))
  {
    if Overlaps(w, e) {
      OverlapBreaks(w, e);
    } else {
      StepKeepsCore(w, e);
      CoreExcludes(Arbiter.Step(w, e));
    }
  }

  // ----- coordinator runs and generations, whatever the locks and slots -----------------------------

  lemma FlagRuns(w: World, e: Arbiter.Event)
    requires RunsOk(w) && (e.Expire? || e.Disconnect?) && Arbiter.Enabled(w, e)
    ensures RunsOk(Arbiter.Step(w, e))
  {
    var v := Arbiter.Step(w, e);
    forall id | id in v.ops ensures RunOk(v.ops[id], v.now) {
      assert RunOk(w.ops[id], w.now);
      if w.ops[id].MutationOp? { CoordinatorTheorems.FlagsKeepInv(w.ops[id].op, w.now); }
    }
  }

  lemma OutsideRuns(w: World, e: Arbiter.Event)
    requires RunsOk(w) && Outside(e) && Arbiter.Enabled(w, e)
    ensures RunsOk(Arbiter.Step(w, e))
  {
    if e.Expire? || e.Disconnect? {
      FlagRuns(w, e);
    } else if e.Advance? {
    }
  }

  lemma StepKeepsRuns(w: World, e: Arbiter.Event)
    requires RunsOk(w) && Arbiter.Enabled(w, e)
    ensures RunsOk(Arbiter.Step(w, e))
  {
    if Outside(e) {
      OutsideRuns(w, e);
    } else if e.Callback? {
      CallbackView(w, e.id, e.input);
    } else if e.Ask? && Admits(w, e.ref, e.generation, e.ask) {
      StartRuns(w, e.id, e.ref, e.ask);
    }
  }

  lemma StartRuns(w: World, id: OpId, ref: ModemRef, ask: Ask)
    requires RunsOk(w) && id !in w.ops && id !in w.done && ref in w.modems && (ask.AskMutation? ==> w.modems[ref].physdev.Some?)
    ensures RunsOk(Start(w, id, ref, ask))
  {
    if ask.AskMutation? {
      var m := w.modems[ref];
      CoordinatorRuns.BeginKeepsInv(id, ask.request, ref, m, m.physdev.value, Ctx(w.now, w.online));
    }
    forall k | k in w.ops ensures RunOk(w.ops[k], w.now) {
    }
  }

  // ----- whole histories ------------------------------------------------------------------------

  /** `states` is a run of the world from its initial state under `events`. */
  ghost predicate History(states: seq<World>, events: seq<Arbiter.Event>) {
    && |states| == |events| + 1 && states[0] == Init()
    && forall k | 0 <= k < |events| :: Arbiter.Enabled(states[k], events[k]) && states[k + 1] == Arbiter.Step(states[k], events[k])
  }

  lemma {:induction false} HistoryRuns(states: seq<World>, events: seq<Arbiter.Event>, k: nat)
    requires History(states, events) && k < |states|
    ensures RunsOk(states[k])
  {
    if k > 0 {
      HistoryRuns(states, events, k - 1);
      StepKeepsRuns(states[k - 1], events[k - 1]);
    }
  }

  ghost predicate NeverOverlaps(states: seq<World>, events: seq<Arbiter.Event>, k: nat)
    requires k <= |events| < |states|
  {
    forall i | 0 <= i < k :: !Overlaps(states[i], events[i])
  }

  lemma {:induction false} HistoryCore(states: seq<World>, events: seq<Arbiter.Event>, k: nat)
    requires History(states, events) && k <= |events| && NeverOverlaps(states, events, k)
    ensures Core(states[k])
  {
    if k > 0 {
      HistoryCore(states, events, k - 1);
      HistoryRuns(states, events, k - 1);
      StepKeepsCore(states[k - 1], events[k - 1]);
    }
  }

  lemma ExclusiveStep(states: seq<World>, events: seq<Arbiter.Event>, k: nat)
    requires History(states, events) && k < |events| && Exclusive(states[k + 1])
    ensures !Overlaps(states[k], events[k])
  {
    HistoryRuns(states, events, k);
    if Overlaps(states[k], events[k]) { OverlapBreaks(states[k], events[k]); }
  }

  /** A history is exclusive up to a state exactly if no step on the way adopts an object that
      another operation is using. No assumption on slots is made. */
  lemma ExclusiveIff(states: seq<World>, events: seq<Arbiter.Event>, k: nat)
    requires History(states, events) && k <= |events|
    ensures (forall i | 0 <= i <= k :: Exclusive(states[i])) <==> NeverOverlaps(states, events, k)
  {
    if forall i | 0 <= i <= k :: Exclusive(states[i]) {
      forall i | 0 <= i < k ensures !Overlaps(states[i], events[i]) {
        ExclusiveStep(states, events, i);
      }
    }
    if NeverOverlaps(states, events, k) {
      forall i | 0 <= i <= k ensures Exclusive(states[i]) {
        HistoryCore(states, events, i);
        CoreExcludes(states[i]);
      }
    }
  }

  /** A change whose slot nobody else uses adopts nothing that is in use. */
  lemma OffSlotNeverOverlaps(w: World, e: Arbiter.Event)
    requires AllOffSlot(w) && Arbiter.Enabled(w, e)
    ensures !Overlaps(w, e)
  {
    if Adopting(w, e) {
      assert Candidate(w, w.ops[e.id].op, e.input.found.ref);
      forall k | k in w.ops && k != e.id ensures !Uses(w.ops[k], e.input.found.ref) {
        assert OffSlot(w.modems, w.ops[e.id], w.ops[k]);
      }
    }
  }

  /** Every step keeps the whole invariant while no two live objects share a slot; only the
      start of a cell-lock change needs that assumption. */
  lemma StepKeepsWorld(w: World, e: Arbiter.Event)
    requires WorldInv(w) && OnePerSlot(w) && Arbiter.Enabled(w, e)
    ensures WorldInv(Arbiter.Step(w, e)) && !Overlaps(w, e)
  {
    OffSlotNeverOverlaps(w, e);
    StepKeepsCore(w, e);
    StepKeepsRuns(w, e);
  }

  lemma {:induction false} HistoryKeeps(states: seq<World>, events: seq<Arbiter.Event>, k: nat)
    requires History(states, events) && k <= |events|
    requires forall i | 0 <= i < k :: OnePerSlot(states[i])
    ensures WorldInv(states[k]) && NeverOverlaps(states, events, k)
  {
    if k > 0 {
      HistoryKeeps(states, events, k - 1);
      StepKeepsWorld(states[k - 1], events[k - 1]);
    }
  }

  /** In every state of every history with one live object per slot: at most one SMS change,
      band/mode change, cell-lock change, scan, carrier query or voltage query per modem,
      and busy flag, kind and cancellable agree with each other and with the holder. */
  lemma AlwaysExclusive(states: seq<World>, events: seq<Arbiter.Event>, k: nat)
    requires History(states, events) && k <= |events|
    requires forall i | 0 <= i < k :: OnePerSlot(states[i])
    ensures Exclusive(states[k])
  {
    HistoryKeeps(states, events, k);
    ExclusiveIff(states, events, k);
  }

  lemma HolderIsOwner(w: World, id: OpId, ref: ModemRef)
    requires OpsOk(w) && ref in w.modems && id in w.ops && TakesLock(w.ops[id]) && Uses(w.ops[id], ref)
    ensures w.modems[ref].cancellable.Some? && w.modems[ref].cancellable.value.op == id
  {
    assert OpOk(w.modems, id, w.ops[id]);
    assert UseOk(w.modems[ref], id, w.ops[id]);
  }

  /** Modem `ref` had a lock in `w` that is no longer there in `v`. */
  ghost predicate LockGone(w: World, v: World, ref: ModemRef) {
    && ref in w.modems && w.modems[ref].cancellable.Some?
    && !(ref in v.modems && v.modems[ref].cancellable == w.modems[ref].cancellable)
  }

  /** ... because operation `id` held it and has ended, leaving the lock free. */
  ghost predicate FreedBy(w: World, v: World, ref: ModemRef, id: OpId) {
    && ref in w.modems && w.modems[ref].cancellable.Some? && w.modems[ref].cancellable.value.op == id
    && id in w.ops && id !in v.ops
    && ref in v.modems && v.modems[ref].cancellable.None?
  }

  lemma FreesOnlyOwn(w: World, v: World, id: OpId, ref: ModemRef)
    requires OpsOk(w) && Frees(w, v, id) && LockGone(w, v, ref)
    ensures FreedBy(w, v, ref, id)
  {
    assert FreesAt(w.modems[ref], v.modems[ref], w.ops[id], ref);
    HolderIsOwner(w, id, ref);
  }

  lemma CallbackReleases(w: World, id: OpId, input: Input, ref: ModemRef)
    requires OpsOk(w) && LocksOk(w) && RunsOk(w) && Arbiter.Enabled(w, Callback(id, input))
    requires LockGone(w, Arbiter.Step(w, Callback(id, input)), ref)
    ensures FreedBy(w, Arbiter.Step(w, Callback(id, input)), ref, id)
  {
    CallbackView(w, id, input);
    var v := ViewOf(w, w.ops[id].op);
    var u := Coordinator.Step(v, Ctx(w.now, w.online), input);
    if CoordinatorTheorems.Quiet(v, u) {
      QuietIsCalm(w, id, u);
    } else if CoordinatorTheorems.Adopts(v, u, input) {
      AdoptionHappens(w, id, u, input);
    } else {
      ReleaseFrees(w, id, u);
      FreesOnlyOwn(w, PutView(w, id, u), id, ref);
    }
  }

  lemma AskTakesNothing(w: World, id: OpId, ref: ModemRef, generation: nat, ask: Ask)
    requires OpsOk(w) && LocksOk(w) && ref in w.modems && Admits(w, ref, generation, ask)
    ensures forall r :: !LockGone(w, Start(w, id, ref, ask), r)
  {
    if !ask.AskStatus? { AdmittedIsIdle(w, ref, generation, ask); }
  }

  /** A lock that goes away goes away because its own holder ended in this very step. */
  lemma ReleasedByOwner(w: World, e: Arbiter.Event, ref: ModemRef)
    requires OpsOk(w) && LocksOk(w) && RunsOk(w) && Arbiter.Enabled(w, e) && LockGone(w, Arbiter.Step(w, e), ref)
    ensures (e.Finish? || e.Callback?) && FreedBy(w, Arbiter.Step(w, e), ref, e.id)
  {
    match e
    case Ask(id, at, generation, ask) =>
      if Admits(w, at, generation, ask) { AskTakesNothing(w, id, at, generation, ask); }
    case Finish(id) =>
      FinishFrees(w, id);
      FreesOnlyOwn(w, End(w, id), id, ref);
    case Callback(id, input) => CallbackReleases(w, id, input, ref);
    case _ =>
  }

  // ----- verified reports -----------------------------------------------------------------------

  /** Every cell-lock change that any history reports as verified passed every stage. */
  lemma VerifiedInEveryHistory(states: seq<World>, events: seq<Arbiter.Event>, k: nat, id: OpId)
    returns (m: CoordinatorTheorems.Milestones)
    requires History(states, events) && k < |states|
    requires id in states[k].done && states[k].done[id].outcome.Some?
    requires states[k].done[id].outcome.value.report.Verified?
    ensures CoordinatorTheorems.Story(states[k].done[id], m)
  {
    HistoryRuns(states, events, k);
    assert DoneOk(states[k].done[id], states[k].now);
    m := CoordinatorTheorems.VerifiedMeansEveryStage(states[k].done[id], states[k].now);
  }

  // ----- generations ------------------------------------------------------------------------------

  /** A step keeps every modem object with its generation, and only plugging adds one, with
      the next generation. */
  ghost predicate Grows(w: World, v: World) {
    && w.nextGeneration <= v.nextGeneration <= MAX_UINT32
    && (forall ref | ref in w.modems :: ref in v.modems && v.modems[ref].generation == w.modems[ref].generation)
    && (forall ref | ref in v.modems && ref !in w.modems :: w.nextGeneration < v.modems[ref].generation == v.nextGeneration)
    && (forall a, b | a in v.modems && a !in w.modems && b in v.modems && b !in w.modems :: a == b)
  }

  lemma CallbackGrows(w: World, id: OpId, input: Input)
    requires RunsOk(w) && Arbiter.Enabled(w, Callback(id, input)) && w.nextGeneration <= MAX_UINT32
    ensures Grows(w, Arbiter.Step(w, Callback(id, input)))
  {
    CallbackView(w, id, input);
    var v := ViewOf(w, w.ops[id].op);
    var u := Coordinator.Step(v, Ctx(w.now, w.online), input);
    if CoordinatorTheorems.Quiet(v, u) {
      QuietIsCalm(w, id, u);
    } else if CoordinatorTheorems.Adopts(v, u, input) {
      AdoptionPuts(w, id, u, input);
    } else {
      forall ref | ref in w.modems
        ensures ref in PutView(w, id, u).modems && PutView(w, id, u).modems[ref].generation == w.modems[ref].generation
      {
        ReleasedModems(w, id, u, ref);
      }
    }
  }

  lemma StepGrows(w: World, e: Arbiter.Event)
    requires RunsOk(w) && Arbiter.Enabled(w, e) && w.nextGeneration <= MAX_UINT32
    ensures Grows(w, Arbiter.Step(w, e))
  {
    if e.Callback? {
      CallbackGrows(w, e.id, e.input);
    } else if e.Ask? {
      if Admits(w, e.ref, e.generation, e.ask) { StartGrows(w, e.id, e.ref, e.ask); }
    } else if e.Finish? {
      EndGrows(w, e.id);
    }
  }

  lemma StartGrows(w: World, id: OpId, at: ModemRef, ask: Ask)
    requires at in w.modems && (ask.AskMutation? ==> w.modems[at].physdev.Some?) && w.nextGeneration <= MAX_UINT32
    ensures Grows(w, Start(w, id, at, ask))
  {
  }

  lemma EndGrows(w: World, id: OpId)
    requires id in w.ops && !w.ops[id].MutationOp? && w.ops[id].modem in w.modems && w.nextGeneration <= MAX_UINT32
    ensures Grows(w, End(w, id))
  {
  }

  /** No generation is ever given to two modem objects, and none exceeds 32 bits. */
  lemma {:induction false} GenerationsStayDistinct(states: seq<World>, events: seq<Arbiter.Event>, k: nat)
    requires History(states, events) && k < |states|
    ensures GenerationsOk(states[k])
  {
    if k > 0 {
      GenerationsStayDistinct(states, events, k - 1);
      HistoryRuns(states, events, k - 1);
      StepGrows(states[k - 1], events[k - 1]);
    }
  }

  // ----- what the status read leaves open ------------------------------------------------------------

  /** A status read is admitted while an SMS change is in flight on the same live modem: its
      admission never looks at the busy flag. */
  lemma StatusIgnoresLock(w: World, ref: ModemRef, generation: nat, id: OpId)
    requires WorldInv(w) && ref in w.modems && w.modems[ref].live && id in w.ops && w.ops[id] == SmsOp(ref)
    ensures Admits(w, ref, generation, AskStatus) <==>
            w.modems[ref].generation == generation && Attested(w.modems[ref]) && !w.modems[ref].voltagePending
  {
    assert Uses(w.ops[id], ref);
    forall b | b in w.ops && b != id ensures Disjoint(w.ops[id], w.ops[b]) {
    }
    if Attested(w.modems[ref]) && ActiveMutation(w, w.modems[ref]) {
      var b :| b in w.ops && w.ops[b].MutationOp? && w.ops[b].op.job.physdev == w.modems[ref].physdev.value;
      assert OffSlot(w.modems, w.ops[b], w.ops[id]);
      assert OnSlot(w.modems[ref], w.ops[b].op.job.physdev);
    }
  }
}
