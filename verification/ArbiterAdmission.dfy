/** Which requests the bridge admits, exactly: those for a live, attested modem that nothing
    is using and that is not cooling down, over every history of module Arbiter. */
module ArbiterAdmission {
  import opened Common
  import opened LockTypes
  import opened Coordinator
  import opened Arbiter
  import opened ArbiterExclusion
  import CoordinatorTheorems

  // ----- cooldown ------------------------------------------------------------------------------

  /** Until when the event makes a modem cool down: ten seconds from the start and from the end
      of a band/mode change, a minute from the end of a cell-lock change that dispatched its
      write; 0 for every other event. */
  ghost function Deadline(w: World, e: Arbiter.Event, ref: ModemRef): int {
    match e
    case Ask(_, at, generation, ask) =>
      if at == ref && ask.AskAdvanced? && Admits(w, ref, generation, ask) then w.now + 10_000_000 else 0
    case Finish(id) => if id in w.ops && w.ops[id] == AdvancedOp(ref) then w.now + 10_000_000 else 0
    case Callback(id, _) =>
      if Arbiter.Enabled(w, e) && Uses(w.ops[id], ref) && w.ops[id].op.setDispatched && id !in Arbiter.Step(w, e).ops
      then w.now + 60_000_000 else 0
    case _ => 0
  }

  lemma ReleaseCools(w: World, id: OpId, u: View, ref: ModemRef)
    requires Result(w, id, u) && CoordinatorTheorems.Releases(ViewOf(w, w.ops[id].op), u, w.now) && ref in w.modems
    ensures var v := PutView(w, id, u);
            && ref in v.modems && id !in v.ops
            && v.modems[ref].cooldownUntil ==
               if w.ops[id].op.setDispatched && Uses(w.ops[id], ref)
               then Max(w.modems[ref].cooldownUntil, w.now + 60_000_000) else w.modems[ref].cooldownUntil
  {
    ReleasedModems(w, id, u, ref);
  }

  lemma CallbackCools(w: World, id: OpId, input: Input, ref: ModemRef)
    requires RunsOk(w) && Arbiter.Enabled(w, Callback(id, input)) && ref in w.modems && 0 <= w.modems[ref].cooldownUntil
    ensures var v := Arbiter.Step(w, Callback(id, input));
            && ref in v.modems
            && v.modems[ref].cooldownUntil == Max(w.modems[ref].cooldownUntil, Deadline(w, Callback(id, input), ref))
  {
    CallbackView(w, id, input);
    var v := ViewOf(w, w.ops[id].op);
    var u := Coordinator.Step(v, Ctx(w.now, w.online), input);
    if CoordinatorTheorems.Quiet(v, u) {
      QuietIsCalm(w, id, u);
    } else if CoordinatorTheorems.Adopts(v, u, input) {
      AdoptionPuts(w, id, u, input);
    } else {
      ReleaseCools(w, id, u, ref);
    }
  }

  lemma StartCools(w: World, id: OpId, at: ModemRef, generation: nat, ask: Ask, ref: ModemRef)
    requires at in w.modems && ref in w.modems && Admits(w, at, generation, ask) && 0 <= w.modems[ref].cooldownUntil
    ensures ref in Start(w, id, at, ask).modems
    ensures Start(w, id, at, ask).modems[ref].cooldownUntil ==
            Max(w.modems[ref].cooldownUntil, Deadline(w, Arbiter.Ask(id, at, generation, ask), ref))
  {
  }

  lemma EndCools(w: World, id: OpId, ref: ModemRef)
    requires id in w.ops && !w.ops[id].MutationOp? && w.ops[id].modem in w.modems
    requires ref in w.modems && 0 <= w.modems[ref].cooldownUntil
    ensures ref in End(w, id).modems
    ensures End(w, id).modems[ref].cooldownUntil == Max(w.modems[ref].cooldownUntil, Deadline(w, Finish(id), ref))
  {
  }

  /** The cooldown of a modem is raised by exactly the events that have a deadline for it. */
  lemma StepCools(w: World, e: Arbiter.Event, ref: ModemRef)
    requires RunsOk(w) && Arbiter.Enabled(w, e) && ref in w.modems && 0 <= w.modems[ref].cooldownUntil
    ensures ref in Arbiter.Step(w, e).modems
    ensures Arbiter.Step(w, e).modems[ref].cooldownUntil == Max(w.modems[ref].cooldownUntil, Deadline(w, e, ref))
  {
    if e.Callback? {
      CallbackCools(w, e.id, e.input, ref);
    } else if e.Ask? {
      if Admits(w, e.ref, e.generation, e.ask) { StartCools(w, e.id, e.ref, e.generation, e.ask, ref); }
    } else if e.Finish? {
      EndCools(w, e.id, ref);
    }
  }

  lemma CallbackKnows(w: World, id: OpId, input: Input, ref: ModemRef)
    requires RunsOk(w) && Arbiter.Enabled(w, Callback(id, input)) && ref !in w.modems
    ensures ref !in Arbiter.Step(w, Callback(id, input)).modems && !Uses(w.ops[id], ref)
  {
    CallbackView(w, id, input);
    var v := ViewOf(w, w.ops[id].op);
    var u := Coordinator.Step(v, Ctx(w.now, w.online), input);
    if CoordinatorTheorems.Quiet(v, u) {
      QuietIsCalm(w, id, u);
    } else if CoordinatorTheorems.Adopts(v, u, input) {
      AdoptionPuts(w, id, u, input);
    }
  }

  /** A modem that is not there yet comes in without cooldown. */
  lemma NewIsCool(w: World, e: Arbiter.Event, ref: ModemRef)
    requires RunsOk(w) && Arbiter.Enabled(w, e) && ref !in w.modems
    ensures Deadline(w, e, ref) == 0
    ensures ref in Arbiter.Step(w, e).modems ==> Arbiter.Step(w, e).modems[ref].cooldownUntil == 0
  {
    if e.Callback? { CallbackKnows(w, e.id, e.input, ref); }
  }

  /** The modem's cooldown, or none while it is unknown. */
  function CooldownOf(w: World, ref: ModemRef): int {
    if ref in w.modems then w.modems[ref].cooldownUntil else 0
  }

  lemma StepCooldown(w: World, e: Arbiter.Event, ref: ModemRef)
    requires RunsOk(w) && Arbiter.Enabled(w, e) && 0 <= CooldownOf(w, ref)
    ensures CooldownOf(Arbiter.Step(w, e), ref) == Max(CooldownOf(w, ref), Deadline(w, e, ref))
  {
    if ref in w.modems { StepCools(w, e, ref); } else { NewIsCool(w, e, ref); }
  }

  lemma CooldownAt(states: seq<World>, events: seq<Arbiter.Event>, k: nat, ref: ModemRef)
    requires History(states, events) && k < |events| && 0 <= CooldownOf(states[k], ref)
    ensures CooldownOf(states[k + 1], ref) == Max(CooldownOf(states[k], ref), Deadline(states[k], events[k], ref))
  {
    HistoryRuns(states, events, k);
    StepCooldown(states[k], events[k], ref);
  }

  /** Some event before position k has a deadline for the modem after `time`. */
  ghost predicate Cooling(states: seq<World>, events: seq<Arbiter.Event>, k: nat, ref: ModemRef, time: int)
    requires k <= |events| < |states|
  {
    exists i :: 0 <= i < k && Deadline(states[i], events[i], ref) > time
  }

  /** A modem cools down at a moment exactly if an event before has a later deadline for it. */
  lemma {:induction false} CoolingIff(states: seq<World>, events: seq<Arbiter.Event>, k: nat, ref: ModemRef, time: int)
    requires History(states, events) && k <= |events| && 0 <= time
    ensures 0 <= CooldownOf(states[k], ref)
    ensures CooldownOf(states[k], ref) > time <==> Cooling(states, events, k, ref, time)
  {
    if k > 0 {
      CoolingIff(states, events, k - 1, ref, time);
      CooldownAt(states, events, k - 1, ref);
      if Cooling(states, events, k, ref, time) && !Cooling(states, events, k - 1, ref, time) {
        var i :| 0 <= i < k && Deadline(states[i], events[i], ref) > time;
        assert i == k - 1;
      }
    }
  }

  lemma {:induction false} ClockRuns(states: seq<World>, events: seq<Arbiter.Event>, k: nat)
    requires History(states, events) && k <= |events|
    ensures 0 <= states[k].now
  {
    if k > 0 { ClockRuns(states, events, k - 1); }
  }

  lemma DeadlineHolds(states: seq<World>, events: seq<Arbiter.Event>, i: nat, k: nat, ref: ModemRef, generation: nat, ask: Ask)
    requires History(states, events) && i < k <= |events| && states[k].now < Deadline(states[i], events[i], ref)
    requires ask.AskAdvanced? || ask.AskMutation?
    ensures !Admits(states[k], ref, generation, ask)
  {
    ClockRuns(states, events, k);
    CoolingIff(states, events, k, ref, states[k].now);
  }

  /** For ten seconds after a band/mode change started or ended its modem admits neither a
      band/mode nor a cell-lock change. */
  lemma TenSeconds(states: seq<World>, events: seq<Arbiter.Event>, i: nat, k: nat, ref: ModemRef, generation: nat, ask: Ask)
    requires History(states, events) && i < k < |states|
    requires || (events[i].Finish? && states[i].ops[events[i].id] == AdvancedOp(ref))
             || (events[i].Ask? && events[i].ref == ref && events[i].ask.AskAdvanced?
                 && Admits(states[i], ref, events[i].generation, AskAdvanced))
    requires states[k].now < states[i].now + 10_000_000 && (ask.AskAdvanced? || ask.AskMutation?)
    ensures !Admits(states[k], ref, generation, ask)
  {
    DeadlineHolds(states, events, i, k, ref, generation, ask);
  }

  /** A cell-lock change that dispatched its write and ends at step i keeps both of its modem
      objects from any other cell-lock or band/mode change for the next minute. */
  lemma QuietMinute(states: seq<World>, events: seq<Arbiter.Event>, i: nat, k: nat, ref: ModemRef, generation: nat, ask: Ask)
    requires History(states, events) && i < k < |states|
    requires events[i].Callback? && events[i].id !in states[i + 1].ops
    requires var o := states[i].ops[events[i].id]; o.op.setDispatched && Uses(o, ref)
    requires states[k].now < states[i].now + 60_000_000 && (ask.AskAdvanced? || ask.AskMutation?)
    ensures !Admits(states[k], ref, generation, ask)
  {
    DeadlineHolds(states, events, i, k, ref, generation, ask);
  }

  // ----- voltage queries ------------------------------------------------------------------------

  ghost predicate PendingAt(w: World, ref: ModemRef, id: OpId)
    requires ref in w.modems
  {
    id in w.ops && w.ops[id] == VoltageQuery(ref, w.modems[ref].generation)
  }

  /** A pending voltage query has an operation in flight. */
  ghost predicate PendingOk(w: World) {
    forall ref | ref in w.modems && w.modems[ref].live && w.modems[ref].voltagePending :: exists id :: PendingAt(w, ref, id)
  }

  lemma ReleaseLeavesPending(m: Modem, cooldown: bool, now: int)
    ensures var n := Release(m, cooldown, now);
            n.generation == m.generation && n.live == m.live && n.voltagePending == m.voltagePending
  {
  }

  lemma CallbackKeepsPending(w: World, id: OpId, input: Input, ref: ModemRef)
    requires RunsOk(w) && Arbiter.Enabled(w, Callback(id, input))
    ensures var v := Arbiter.Step(w, Callback(id, input));
            && v.modems.Keys == w.modems.Keys
            && (ref in w.modems ==>
                  && v.modems[ref].generation == w.modems[ref].generation && v.modems[ref].live == w.modems[ref].live
                  && v.modems[ref].voltagePending == w.modems[ref].voltagePending)
            && forall k | k in w.ops && k != id :: k in v.ops && v.ops[k] == w.ops[k]
  {
    CallbackView(w, id, input);
    var v := ViewOf(w, w.ops[id].op);
    var u := Coordinator.Step(v, Ctx(w.now, w.online), input);
    if CoordinatorTheorems.Quiet(v, u) {
      QuietIsCalm(w, id, u);
    } else if CoordinatorTheorems.Adopts(v, u, input) {
      AdoptionPuts(w, id, u, input);
    } else if ref in w.modems {
      ReleasedModems(w, id, u, ref);
      ReleaseLeavesPending(w.modems[ref], w.ops[id].op.setDispatched, w.now);
    }
  }

  lemma FinishPending(w: World, id: OpId)
    requires PendingOk(w) && Arbiter.Enabled(w, Finish(id))
    ensures PendingOk(Arbiter.Step(w, Finish(id)))
  {
    var v := Arbiter.Step(w, Finish(id));
    forall ref | ref in v.modems && v.modems[ref].live && v.modems[ref].voltagePending ensures exists k :: PendingAt(v, ref, k) {
      var k :| PendingAt(w, ref, k);
      assert PendingAt(v, ref, k);
    }
  }

  lemma AskPending(w: World, id: OpId, at: ModemRef, ask: Ask)
    requires PendingOk(w) && id !in w.ops && at in w.modems && (ask.AskMutation? ==> w.modems[at].physdev.Some?)
    ensures PendingOk(Start(w, id, at, ask))
  {
    var v := Start(w, id, at, ask);
    forall ref | ref in v.modems && v.modems[ref].live && v.modems[ref].voltagePending ensures exists k :: PendingAt(v, ref, k) {
      if ask.AskVoltage? && ref == at {
        assert PendingAt(v, ref, id);
      } else {
        var k :| PendingAt(w, ref, k);
        assert PendingAt(v, ref, k);
      }
    }
  }

  lemma OutsidePending(w: World, e: Arbiter.Event)
    requires PendingOk(w) && Outside(e) && Arbiter.Enabled(w, e)
    ensures PendingOk(Arbiter.Step(w, e))
  {
    var v := Arbiter.Step(w, e);
    forall ref | ref in v.modems && v.modems[ref].live && v.modems[ref].voltagePending ensures exists k :: PendingAt(v, ref, k) {
      var k :| PendingAt(w, ref, k);
      assert PendingAt(v, ref, k);
    }
  }

  lemma CallbackPending(w: World, id: OpId, input: Input)
    requires PendingOk(w) && RunsOk(w) && Arbiter.Enabled(w, Callback(id, input))
    ensures PendingOk(Arbiter.Step(w, Callback(id, input)))
  {
    var v := Arbiter.Step(w, Callback(id, input));
    forall ref | ref in v.modems && v.modems[ref].live && v.modems[ref].voltagePending ensures exists k :: PendingAt(v, ref, k) {
      CallbackKeepsPending(w, id, input, ref);
      var k :| PendingAt(w, ref, k);
      assert PendingAt(v, ref, k);
    }
  }

  lemma StepKeepsPending(w: World, e: Arbiter.Event)
    requires PendingOk(w) && RunsOk(w) && Arbiter.Enabled(w, e)
    ensures PendingOk(Arbiter.Step(w, e))
  {
    match e
    case Finish(id) => FinishPending(w, id);
    case Callback(id, input) => CallbackPending(w, id, input);
    case Ask(id, at, generation, ask) => if Admits(w, at, generation, ask) { AskPending(w, id, at, ask); }
    case _ => OutsidePending(w, e);
  }

  lemma {:induction false} HistoryPending(states: seq<World>, events: seq<Arbiter.Event>, k: nat)
    requires History(states, events) && k < |states|
    ensures PendingOk(states[k])
  {
    if k > 0 {
      HistoryPending(states, events, k - 1);
      HistoryRuns(states, events, k - 1);
      StepKeepsPending(states[k - 1], events[k - 1]);
    }
  }

  // ----- exactly what is admitted ------------------------------------------------------------------

  /** A live, attested modem object. */
  ghost predicate Present(w: World, ref: ModemRef) {
    && ref in w.modems && w.modems[ref].live && w.modems[ref].attestable
    && w.modems[ref].physdev.Some? && w.modems[ref].physdev.value != ""
  }

  /** The caller's generation is the modem's; a voltage query names none. */
  ghost predicate RightGeneration(w: World, ref: ModemRef, generation: nat, ask: Ask)
    requires ref in w.modems
  {
    ask.AskVoltage? || w.modems[ref].generation == generation
  }

  /** Nothing is using the object and no cell-lock change is under way on its slot. A status
      read minds only scans, carrier queries, voltage queries and the slot. */
  ghost predicate Unused(w: World, ref: ModemRef, ask: Ask)
    requires ref in w.modems && w.modems[ref].physdev.Some?
  {
    && (forall id | id in w.ops && Uses(w.ops[id], ref) ::
          ask.AskStatus? && (w.ops[id].SmsOp? || w.ops[id].AdvancedOp? || w.ops[id].MutationOp?))
    && SlotQuiet(w.ops, w.modems[ref].physdev.value)
  }

  lemma UnusedIsFree(w: World, ref: ModemRef)
    requires LocksOk(w) && PendingOk(w) && Present(w, ref) && Free(w, ref)
    ensures Unlocked(w.modems[ref]) && !w.modems[ref].voltagePending
  {
    assert LockOk(w.ops, ref, w.modems[ref]);
    assert forall id :: PendingAt(w, ref, id) ==> Uses(w.ops[id], ref);
  }

  lemma PendingIsUse(w: World, ref: ModemRef)
    requires PendingOk(w) && Present(w, ref) && w.modems[ref].voltagePending
    ensures exists id :: id in w.ops && w.ops[id].VoltageQuery? && Uses(w.ops[id], ref)
  {
    var id :| PendingAt(w, ref, id);
    assert Uses(w.ops[id], ref);
  }

  lemma SlotIs(w: World, ref: ModemRef)
    requires Present(w, ref)
    ensures ActiveMutation(w, w.modems[ref]) <==> !SlotQuiet(w.ops, w.modems[ref].physdev.value)
  {
  }

  /** Scan and carrier queries are seen by their own tables, voltage queries by the flag. */
  lemma QueriesSeen(w: World, ref: ModemRef)
    requires OpsOk(w) && PendingOk(w) && Present(w, ref)
    ensures (ActiveScan(w, ref) || ActiveCarrier(w, ref) || w.modems[ref].voltagePending) <==>
            exists id :: id in w.ops && Uses(w.ops[id], ref) && (w.ops[id].ScanOp? || w.ops[id].CarrierOp? || w.ops[id].VoltageQuery?)
  {
    if w.modems[ref].voltagePending { PendingIsUse(w, ref); }
    if ActiveScan(w, ref) { var id :| id in w.ops && w.ops[id] == ScanOp(ref); assert Uses(w.ops[id], ref); }
    if ActiveCarrier(w, ref) { var id :| id in w.ops && w.ops[id] == CarrierOp(ref); assert Uses(w.ops[id], ref); }
    if id :| id in w.ops && Uses(w.ops[id], ref) && (w.ops[id].ScanOp? || w.ops[id].CarrierOp? || w.ops[id].VoltageQuery?) {
      assert OpOk(w.modems, id, w.ops[id]);
      assert UseOk(w.modems[ref], id, w.ops[id]);
    }
  }

  lemma StatusAdmittedIff(w: World, ref: ModemRef, generation: nat)
    requires OpsOk(w) && PendingOk(w) && ref in w.modems
    ensures Admits(w, ref, generation, AskStatus) <==>
            Present(w, ref) && w.modems[ref].generation == generation && Unused(w, ref, AskStatus)
  {
    if Present(w, ref) {
      SlotIs(w, ref);
      QueriesSeen(w, ref);
    }
  }

  lemma AdmittedIff(w: World, ref: ModemRef, generation: nat, ask: Ask)
    requires OpsOk(w) && LocksOk(w) && PendingOk(w) && ref in w.modems && !ask.AskStatus?
    ensures Admits(w, ref, generation, ask) <==>
            && Present(w, ref) && RightGeneration(w, ref, generation, ask) && Unused(w, ref, ask)
            && (ask.AskAdvanced? || ask.AskMutation? ==> w.modems[ref].cooldownUntil <= w.now)
  {
    if Admits(w, ref, generation, ask) {
      AdmittedIsIdle(w, ref, generation, ask);
    }
    if Present(w, ref) && Unused(w, ref, ask) {
      UnusedIsFree(w, ref);
      SlotIs(w, ref);
      QueriesSeen(w, ref);
    }
  }

  /** In every history without an overlap a request is admitted exactly if its modem object is
      live and attested, the caller's generation is right, no operation uses the object and no
      cell-lock change its slot, and, for a change of bands, modes or the cell lock, no
      deadline of an earlier event is still to come. */
  lemma AdmissionIff(states: seq<World>, events: seq<Arbiter.Event>, k: nat, ref: ModemRef, generation: nat, ask: Ask)
    requires History(states, events) && k <= |events| && NeverOverlaps(states, events, k) && ref in states[k].modems
    ensures var w := states[k];
            Admits(w, ref, generation, ask) <==>
            && Present(w, ref) && RightGeneration(w, ref, generation, ask) && Unused(w, ref, ask)
            && (ask.AskAdvanced? || ask.AskMutation? ==> !Cooling(states, events, k, ref, w.now))
  {
    HistoryCore(states, events, k);
    HistoryPending(states, events, k);
    ClockRuns(states, events, k);
    CoolingIff(states, events, k, ref, states[k].now);
    if ask.AskStatus? {
      StatusAdmittedIff(states[k], ref, generation);
    } else {
      AdmittedIff(states[k], ref, generation, ask);
    }
  }
}
