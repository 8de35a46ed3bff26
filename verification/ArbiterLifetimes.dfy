/** What is over stays over, in every history of module Arbiter: a modem that was removed, an
    operation that timed out, a reply whose caller is gone; and at most 32 modems live. */
module ArbiterLifetimes {
  import opened Common
  import opened LockTypes
  import opened Coordinator
  import opened Arbiter
  import opened ArbiterExclusion
  import opened ArbiterAdmission
  import CoordinatorRuns
  import CoordinatorTheorems
  import CoordinatorOutcomes
  import CoordinatorSuccess

  // ----- removed modems ------------------------------------------------------------------------

  lemma StepNeverRevives(w: World, e: Arbiter.Event, ref: ModemRef)
    requires RunsOk(w) && Arbiter.Enabled(w, e) && ref in w.modems && !w.modems[ref].live
    ensures ref in Arbiter.Step(w, e).modems && !Arbiter.Step(w, e).modems[ref].live
  {
    if e.Callback? { CallbackKeepsPending(w, e.id, e.input, ref); }
  }

  lemma {:induction false} RemovedStaysOut(states: seq<World>, events: seq<Arbiter.Event>, i: nat, k: nat, ref: ModemRef)
    requires History(states, events) && i < k <= |events| && events[i] == Unplug(ref)
    ensures ref in states[k].modems && !states[k].modems[ref].live
  {
    if i < k - 1 {
      RemovedStaysOut(states, events, i, k - 1, ref);
      HistoryRuns(states, events, k - 1);
      StepNeverRevives(states[k - 1], events[k - 1], ref);
    }
  }

  /** A removed modem object admits nothing any more. */
  lemma RemovedNeverAdmits(states: seq<World>, events: seq<Arbiter.Event>, i: nat, k: nat, ref: ModemRef, generation: nat, ask: Ask)
    requires History(states, events) && i < k <= |events| && events[i] == Unplug(ref)
    ensures !Admits(states[k], ref, generation, ask)
  {
    RemovedStaysOut(states, events, i, k, ref);
  }

  // ----- at most 32 --------------------------------------------------------------------------------

  lemma AdmittedShrinks(w: World, e: Arbiter.Event, ref: ModemRef)
    requires RunsOk(w) && Arbiter.Enabled(w, e) && !e.Plug? && ref in Admitted(Arbiter.Step(w, e))
    ensures ref in Admitted(w)
  {
    if e.Callback? { CallbackKeepsPending(w, e.id, e.input, ref); }
  }

  lemma StepNeverOver32(w: World, e: Arbiter.Event)
    requires RunsOk(w) && Arbiter.Enabled(w, e) && |Admitted(w)| <= 32
    ensures |Admitted(Arbiter.Step(w, e))| <= 32
  {
    var v := Arbiter.Step(w, e);
    if e.Plug? {
      if v != w { assert Admitted(v) == Admitted(w) + {e.ref}; }
    } else {
      forall ref | ref in Admitted(v) ensures ref in Admitted(w) { AdmittedShrinks(w, e, ref); }
      SubsetSize(Admitted(v), Admitted(w));
    }
  }

  lemma {:induction false} NeverOver32(states: seq<World>, events: seq<Arbiter.Event>, k: nat)
    requires History(states, events) && k <= |events|
    ensures |Admitted(states[k])| <= 32
  {
    if k > 0 {
      NeverOver32(states, events, k - 1);
      HistoryRuns(states, events, k - 1);
      StepNeverOver32(states[k - 1], events[k - 1]);
    }
  }

  // ----- operations that are too late -----------------------------------------------------------------

  /** The change timed out or lost its caller; it may be over by now. */
  ghost predicate Doomed(w: World, id: OpId) {
    && (id in w.ops ==> w.ops[id].MutationOp? && (w.ops[id].op.timedOut || w.ops[id].op.transportLost))
    && (id in w.done ==> w.done[id].outcome.Some? && w.done[id].outcome.value.report.Failure?)
    && (id in w.ops || id in w.done)
  }

  /** The change lost its caller. */
  ghost predicate Unheard(w: World, id: OpId) {
    && (id in w.ops ==> w.ops[id].MutationOp? && w.ops[id].op.transportLost && !w.ops[id].op.deferred)
    && (id in w.done ==> w.done[id].outcome.Some? && !w.done[id].outcome.value.replied)
    && (id in w.ops || id in w.done)
  }

  lemma ViewStaysDoomed(v: View, ctx: Ctx, input: Input)
    requires CoordinatorRuns.Inv(v.op, ctx.now) && Coordinator.Enabled(v, ctx, input) && (v.op.timedOut || v.op.transportLost)
    ensures var next := Coordinator.Step(v, ctx, input).op;
            && (next.timedOut || next.transportLost)
            && (next.outcome.Some? ==> next.outcome.value.report.Failure?)
  {
    CoordinatorSuccess.StepKeepsFlags(v, ctx, input);
    var next := Coordinator.Step(v, ctx, input).op;
    if next.outcome.Some? && next.outcome.value.report.Verified? {
      CoordinatorOutcomes.VerifiedIff(v, ctx, input, next.outcome.value.report.state, next.outcome.value.report.serving);
    }
  }

  lemma ViewStaysUnheard(v: View, ctx: Ctx, input: Input)
    requires Coordinator.Enabled(v, ctx, input) && v.op.transportLost && !v.op.deferred
    ensures var next := Coordinator.Step(v, ctx, input).op;
            && next.transportLost && !next.deferred && (next.outcome.Some? ==> !next.outcome.value.replied)
  {
    CoordinatorSuccess.StepKeepsFlags(v, ctx, input);
    CoordinatorTheorems.StepKeepsReply(v, ctx, input);
  }

  lemma OwnCallbackDooms(w: World, id: OpId, input: Input)
    requires RunsOk(w) && Arbiter.Enabled(w, Callback(id, input))
    ensures Doomed(w, id) ==> Doomed(Arbiter.Step(w, Callback(id, input)), id)
    ensures Unheard(w, id) ==> Unheard(Arbiter.Step(w, Callback(id, input)), id)
  {
    assert RunOk(w.ops[id], w.now);
    var v, ctx := ViewOf(w, w.ops[id].op), Ctx(w.now, w.online);
    if Doomed(w, id) { ViewStaysDoomed(v, ctx, input); }
    if Unheard(w, id) { ViewStaysUnheard(v, ctx, input); }
  }

  /** The step does not touch operation `id`. */
  ghost predicate Untouched(w: World, v: World, id: OpId) {
    && (id in v.ops <==> id in w.ops) && (id in w.ops ==> v.ops[id] == w.ops[id])
    && (id in v.done <==> id in w.done) && (id in w.done ==> v.done[id] == w.done[id])
  }

  lemma CallbackElsewhere(w: World, e: Arbiter.Event, id: OpId)
    requires Arbiter.Enabled(w, e) && e.Callback? && e.id != id
    ensures Untouched(w, Arbiter.Step(w, e), id)
  {
  }

  lemma AskElsewhere(w: World, e: Arbiter.Event, id: OpId)
    requires Arbiter.Enabled(w, e) && e.Ask? && (id in w.ops || id in w.done)
    ensures Untouched(w, Arbiter.Step(w, e), id)
  {
  }

  lemma FinishElsewhere(w: World, e: Arbiter.Event, id: OpId)
    requires Arbiter.Enabled(w, e) && e.Finish? && (id in w.ops ==> w.ops[id].MutationOp?)
    ensures Untouched(w, Arbiter.Step(w, e), id)
  {
  }

  lemma FlagsOnly(w: World, e: Arbiter.Event, id: OpId)
    requires Arbiter.Enabled(w, e) && Outside(e)
    ensures Doomed(w, id) ==> Doomed(Arbiter.Step(w, e), id)
    ensures Unheard(w, id) ==> Unheard(Arbiter.Step(w, e), id)
  {
  }

  lemma StepKeepsLate(w: World, e: Arbiter.Event, id: OpId)
    requires RunsOk(w) && Arbiter.Enabled(w, e)
    ensures Doomed(w, id) ==> Doomed(Arbiter.Step(w, e), id)
    ensures Unheard(w, id) ==> Unheard(Arbiter.Step(w, e), id)
  {
    if Doomed(w, id) || Unheard(w, id) {
      match e
      case Callback(k, input) => if k == id { OwnCallbackDooms(w, id, input); } else { CallbackElsewhere(w, e, id); }
      case Ask(_, _, _, _) => AskElsewhere(w, e, id);
      case Finish(_) => FinishElsewhere(w, e, id);
      case _ => FlagsOnly(w, e, id);
    }
  }

  lemma {:induction false} LateStaysLate(states: seq<World>, events: seq<Arbiter.Event>, i: nat, k: nat, id: OpId)
    requires History(states, events) && i <= k <= |events|
    ensures Doomed(states[i], id) ==> Doomed(states[k], id)
    ensures Unheard(states[i], id) ==> Unheard(states[k], id)
  {
    if i < k {
      LateStaysLate(states, events, i, k - 1, id);
      HistoryRuns(states, events, k - 1);
      StepKeepsLate(states[k - 1], events[k - 1], id);
    }
  }

  /** A change whose 130 seconds ran out, or whose caller was lost, at step i never ends
      verified; and the lost caller is never answered. */
  lemma TooLateToVerify(states: seq<World>, events: seq<Arbiter.Event>, i: nat, k: nat, id: OpId)
    requires History(states, events) && i < k <= |events| && id in states[k].done
    requires id in states[i].ops && states[i].ops[id].MutationOp? && (events[i] == Expire(id) || events[i] == Disconnect)
    ensures states[k].done[id].outcome.Some? && states[k].done[id].outcome.value.report.Failure?
    ensures events[i] == Disconnect ==> !states[k].done[id].outcome.value.replied
  {
    HistoryRuns(states, events, i);
    assert id !in states[i].done;
    LateStaysLate(states, events, i + 1, k, id);
  }
}
