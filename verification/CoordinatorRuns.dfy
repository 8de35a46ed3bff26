/** What every run of the mutation coordinator keeps: the order of its commands and
    observations, the single write and the single reset, its one continuation, and a bound
    on the number of callbacks. */
module CoordinatorRuns {
  import opened Common
  import opened LockTypes
  import opened MutationPolicy
  import opened Coordinator

  const READ_BUDGET: nat := 10
  const REPROBE_BUDGET: nat := 90
  const REGISTRATION_BUDGET: nat := 60

  // ----- the protocol, as a ledger over traces -------------------------------------------

  /** How far a trace has come. `Bad` is reached by any event out of order or out of time. */
  datatype Ledger =
    | Empty
    | Probed
    | Written
    | PreReads(start: int, count: nat, streak: nat, last: int)
    | ResetOut
    | Absent(start: int, polls: nat)
    | Back(ref: ModemRef, generation: nat, start: int, polls: nat)
    | PostReads(ref: ModemRef, generation: nat, start: int, count: nat, matched: bool, last: int)
    | Served(ref: ModemRef, cell: Cell)
    | Bad

  /** A read is in time when the first is sent no earlier than the stage opened and every
      later one at least a second after the previous answer. */
  predicate InTime(start: int, count: nat, last: int, sentAt: int, at: int) {
    && sentAt <= at
    && start + count * NVM_VERIFY_POLL <= sentAt < start + NVM_VERIFY_TIMEOUT
    && (count > 0 ==> last + NVM_VERIFY_POLL <= sentAt)
  }

  function After(job: Job, ledger: Ledger, e: Event): Ledger {
    match e
    case ProbeParsed(target, at) =>
      if ledger.Empty? && target == job.original then Probed else Bad
    case WriteSent(target, at) =>
      if ledger.Probed? && target == job.original then Written else Bad
    case WriteAcknowledged(at) =>
      if ledger.Written? then PreReads(at, 0, 0, at) else Bad
    case NvmSeen(stage, target, sentAt, at, state) =>
      if ledger.PreReads? && stage == PreReset && target == job.original
         && ledger.streak < 2 && ledger.count < READ_BUDGET
         && InTime(ledger.start, ledger.count, ledger.last, sentAt, at) then
        PreReads(ledger.start, ledger.count + 1, if StateMatches(state, job.request) then ledger.streak + 1 else 0, at)
      else if ledger.PostReads? && stage == PostReset && target == ledger.ref
              && !ledger.matched && ledger.count < READ_BUDGET
              && InTime(ledger.start, ledger.count, ledger.last, sentAt, at) then
        PostReads(ledger.ref, ledger.generation, ledger.start, ledger.count + 1, StateMatches(state, job.request), at)
      else Bad
    case ResetSent(target, at, targetValid, clean) =>
      if ledger.PreReads? && ledger.streak == 2 && target == job.original && targetValid && clean
         && ledger.last == at < ledger.start + NVM_VERIFY_TIMEOUT then ResetOut
      else Bad
    case ResetReturned(at) =>
      if ledger.ResetOut? then Absent(at, 0) else Bad
    case StillAbsent(at) =>
      if ledger.Absent? && ledger.polls + 1 < REPROBE_BUDGET
         && ledger.start + (ledger.polls + 1) * REPROBE_POLL <= at < ledger.start + REPROBE_TIMEOUT then
        Absent(ledger.start, ledger.polls + 1)
      else Bad
    case Adopted(target, generation, physdev, attested, at) =>
      if ledger.Absent? && target != job.original && generation != job.originalGeneration
         && physdev == Some(job.physdev) && attested then Back(target, generation, at, 0)
      else Bad
    case StillSearching(at) =>
      if ledger.Back? && ledger.polls + 1 < REGISTRATION_BUDGET
         && ledger.start + (ledger.polls + 1) * REGISTRATION_POLL <= at < ledger.start + REGISTRATION_TIMEOUT then
        Back(ledger.ref, ledger.generation, ledger.start, ledger.polls + 1)
      else Bad
    case Registered(target, at) =>
      if ledger.Back? && target == ledger.ref then
        PostReads(ledger.ref, ledger.generation, at, 0, false, at)
      else Bad
    case ServingSeen(target, cell, at) =>
      if ledger.PostReads? && ledger.matched && target == ledger.ref
         && job.request.SetLock? && CellMatches(cell, job.request) then Served(ledger.ref, cell)
      else Bad
  }

  function Summary(job: Job, tr: seq<Event>): Ledger {
    if tr == [] then Empty
    else After(job, Summary(job, tr[..|tr| - 1]), tr[|tr| - 1])
  }

  ghost predicate Legal(job: Job, tr: seq<Event>) {
    !Summary(job, tr).Bad?
  }

  lemma SummaryAppend(job: Job, tr: seq<Event>, e: Event)
    ensures Summary(job, tr + [e]) == After(job, Summary(job, tr), e)
  {
    assert (tr + [e])[..|tr|] == tr;
  }

  lemma SummaryAppendTwo(job: Job, tr: seq<Event>, a: Event, b: Event)
    ensures Summary(job, tr + [a, b]) == After(job, After(job, Summary(job, tr), a), b)
  {
    assert tr + [a, b] == (tr + [a]) + [b];
    SummaryAppend(job, tr, a);
    SummaryAppend(job, tr + [a], b);
  }

  // ----- the operation's fields agree with its ledger ------------------------------------

  ghost predicate Waits(op: Op, command: Command, target: ModemRef) {
    && op.poll.None?
    && op.pending.Some? && op.pending.value.command == command && op.pending.value.target == target
  }

  ghost predicate Polls(op: Op, interval: int) {
    op.pending.None? && op.poll.Some? && op.poll.value.interval == interval
  }

  /** Next read of an NVM stage: in flight since an allowed moment, or on its timer. */
  ghost predicate ReadOn(op: Op, now: int, target: ModemRef, start: int, count: nat, last: int) {
    && op.deadline == start + NVM_VERIFY_TIMEOUT
    && count <= READ_BUDGET
    && (|| (Waits(op, ReadNvm, target) && InTime(start, count, last, op.pending.value.sentAt, now))
        || (Polls(op, NVM_VERIFY_POLL) && count > 0 && op.poll.value.due == last + NVM_VERIFY_POLL
            && start + count * NVM_VERIFY_POLL <= op.poll.value.due))
  }

  ghost predicate Running(op: Op, ledger: Ledger, now: int) {
    match op.phase
    case ProtocolProbe => ledger.Empty? && Waits(op, Probe, op.job.original)
    case SetCommand => ledger.Written? && Waits(op, Write, op.job.original)
    case PreResetNvm =>
      && ledger.PreReads? && ledger.streak == op.streak < 2
      && ReadOn(op, now, op.job.original, ledger.start, ledger.count, ledger.last)
    case ResetCommand => ledger.ResetOut? && Waits(op, Reset, op.job.original)
    case Reprobe =>
      && ledger.Absent? && ledger.polls < REPROBE_BUDGET && Polls(op, REPROBE_POLL)
      && op.deadline == ledger.start + REPROBE_TIMEOUT
      && ledger.start + (ledger.polls + 1) * REPROBE_POLL <= op.poll.value.due
    case Registration =>
      && ledger.Back? && ledger.polls < REGISTRATION_BUDGET && Polls(op, REGISTRATION_POLL)
      && op.deadline == ledger.start + REGISTRATION_TIMEOUT
      && ledger.start + (ledger.polls + 1) * REGISTRATION_POLL <= op.poll.value.due
    case PostResetNvm =>
      && ledger.PostReads? && !ledger.matched && op.streak == 0
      && ReadOn(op, now, ledger.ref, ledger.start, ledger.count, ledger.last)
    case CellVerify =>
      ledger.PostReads? && ledger.matched && op.job.request.SetLock? && Waits(op, Scan, ledger.ref)
  }

  ghost predicate Partner(op: Op, ledger: Ledger) {
    match ledger
    case Back(ref, generation, _, _) => op.replacement == Some(ref) && op.replacementGeneration == generation
    case PostReads(ref, generation, _, _, _, _) => op.replacement == Some(ref) && op.replacementGeneration == generation
    case Served(ref, _) => op.replacement == Some(ref)
    case _ => op.replacement.None?
  }

  ghost predicate Ended(op: Op, ledger: Ledger)
    requires op.outcome.Some?
  {
    && op.pending.None? && op.poll.None?
    && !ledger.Bad?
    && (op.outcome.value.report.Verified? ==>
          match op.job.request
          case ClearLock =>
            ledger.PostReads? && ledger.matched && op.outcome.value.report == Verified(ClearedVerified, None)
          case SetLock(_, _) =>
            ledger.Served? && op.outcome.value.report == Verified(AppliedVerified, Some(ledger.cell)))
  }

  predicate WasReset(ledger: Ledger) {
    ledger.ResetOut? || ledger.Absent? || ledger.Back? || ledger.PostReads? || ledger.Served?
  }

  predicate WasAcknowledged(ledger: Ledger) {
    ledger.PreReads? || WasReset(ledger)
  }

  ghost predicate Agrees(op: Op, ledger: Ledger, now: int) {
    && Partner(op, ledger)
    && (op.setDispatched <==> !(ledger.Empty? || ledger.Probed?))
    && (op.acknowledged <==> WasAcknowledged(ledger)) && (op.resetDispatched <==> WasReset(ledger))
    && op.replacement != Some(op.job.original)
    && (op.outcome.None? ==> Running(op, ledger, now))
    && (op.outcome.Some? ==> Ended(op, ledger))
  }

  ghost predicate Inv(op: Op, now: int) {
    Agrees(op, Summary(op.job, op.trace), now)
  }

  // ----- callbacks still to come --------------------------------------------------------

  const CALLBACK_BUDGET: nat := 194

  /** Callbacks left in a stage of reads: two per read that may still be sent. */
  function ReadFuel(op: Op, count: int): int {
    2 * (READ_BUDGET - count) + (if op.poll.Some? then 1 else 0)
  }

  function FuelAt(op: Op, ledger: Ledger): int {
    if op.outcome.Some? then 0
    else match ledger
      case Empty => CALLBACK_BUDGET
      case Written => 193
      case PreReads(_, count, _, _) => 172 + ReadFuel(op, count)
      case ResetOut => 172
      case Absent(_, polls) => 81 + REPROBE_BUDGET - polls
      case Back(_, _, _, polls) => 21 + REGISTRATION_BUDGET - polls
      case PostReads(_, _, _, count, matched, _) => if matched then 1 else 1 + ReadFuel(op, count)
      case _ => 0
  }

  /** Upper bound on the callbacks an operation can still have. */
  function Fuel(op: Op): int {
    FuelAt(op, Summary(op.job, op.trace))
  }

  lemma ActiveHasFuel(op: Op, ledger: Ledger, now: int)
    requires Agrees(op, ledger, now)
    ensures 0 <= FuelAt(op, ledger) <= CALLBACK_BUDGET
    ensures op.outcome.None? ==> 1 <= FuelAt(op, ledger)
  {
  }

  // ----- every callback keeps the invariant ---------------------------------------------

  lemma BeginKeepsInv(id: OpId, request: Request, ref: ModemRef, modem: Modem, physdev: string, ctx: Ctx)
    ensures Inv(Begin(id, request, ref, modem, physdev, ctx).op, ctx.now)
    ensures Fuel(Begin(id, request, ref, modem, physdev, ctx).op) == CALLBACK_BUDGET
  {
  }

  /** The reply being delivered fixes where the operation stands. */
  lemma ReplyFixesLedger(v: View, ctx: Ctx, input: Input, ledger: Ledger)
    requires Agrees(v.op, ledger, ctx.now) && Enabled(v, ctx, input)
    ensures input.ProbeReply? ==> ledger.Empty? && v.op.phase == ProtocolProbe
    ensures input.SetReply? ==> ledger.Written? && v.op.phase == SetCommand
    ensures input.ResetReply? ==> ledger.ResetOut? && v.op.phase == ResetCommand
    ensures input.CellReply? ==> ledger.PostReads? && ledger.matched && v.op.phase == CellVerify
    ensures input.NvmReply? ==>
              || (v.op.phase == PreResetNvm && ledger.PreReads?)
              || (v.op.phase == PostResetNvm && ledger.PostReads? && !ledger.matched)
    ensures input.PollFires? ==>
              || (v.op.phase == PreResetNvm && ledger.PreReads?)
              || (v.op.phase == Reprobe && ledger.Absent?)
              || (v.op.phase == Registration && ledger.Back?)
              || (v.op.phase == PostResetNvm && ledger.PostReads? && !ledger.matched)
  {
  }

  // Each callback is split by its guards: what a failing reply does, and what a good one does.

  ghost predicate Moved(op: Op, later: Op, es: seq<Event>, ledger: Ledger, now: int) {
    later.job == op.job && later.trace == op.trace + es && Agrees(later, ledger, now)
  }

  lemma StayedKeepsInv(op: Op, later: Op, now: int)
    requires Inv(op, now) && op.outcome.None?
    requires Moved(op, later, [], Summary(op.job, op.trace), now)
    requires later.outcome.Some? || (op.poll.Some? && later.poll.None?)
    ensures Inv(later, now) && Fuel(later) < Fuel(op)
  {
    assert op.trace + [] == op.trace;
    ActiveHasFuel(op, Summary(op.job, op.trace), now);
  }

  lemma MovedKeepsInv(op: Op, later: Op, e: Event, now: int)
    requires Inv(op, now) && op.outcome.None? && (e.NvmSeen? ==> op.pending.Some?)
    requires Moved(op, later, [e], After(op.job, Summary(op.job, op.trace), e), now)
    ensures Inv(later, now) && Fuel(later) < Fuel(op)
  {
    SummaryAppend(op.job, op.trace, e);
  }

  lemma MovedTwiceKeepsInv(op: Op, later: Op, a: Event, b: Event, now: int)
    requires Inv(op, now) && op.outcome.None? && !b.NvmSeen?
    requires Moved(op, later, [a, b], After(op.job, After(op.job, Summary(op.job, op.trace), a), b), now)
    ensures Inv(later, now) && Fuel(later) < Fuel(op)
  {
    SummaryAppendTwo(op.job, op.trace, a, b);
  }

  ghost predicate ProbeGood(v: View, error: ErrorClass, response: Response<LockState>)
    requires v.op.pending.Some?
  {
    OriginalValid(Answered(v), v.op.pending.value.target) && error == NoError && response.Parsed?
  }

  lemma ProbeFails(v: View, ctx: Ctx, error: ErrorClass, response: Response<LockState>, ledger: Ledger)
    requires Agrees(v.op, ledger, ctx.now) && Enabled(v, ctx, ProbeReply(error, response))
    requires ledger.Empty? && v.op.phase == ProtocolProbe && !ProbeGood(v, error, response)
    ensures Moved(v.op, ProbeReady(v, ctx, error, response).op, [], ledger, ctx.now)
  {
    var state := ProbeFailure(v, ctx, error, response);
  }

  lemma ProbeFailure(v: View, ctx: Ctx, error: ErrorClass, response: Response<LockState>) returns (state: State)
    requires v.op.pending.Some? && v.op.phase == ProtocolProbe && !ProbeGood(v, error, response)
    ensures ProbeReady(v, ctx, error, response) == Fail(Answered(v), ctx, state, state)
  {
    state := if !OriginalValid(Answered(v), v.op.pending.value.target) then DeviceGone
             else if error != NoError || response.Missing? then Normalized else UnsupportedProtocol;
  }

  lemma ProbeDispatches(v: View, ctx: Ctx, error: ErrorClass, response: Response<LockState>, ledger: Ledger)
    requires Agrees(v.op, ledger, ctx.now) && Enabled(v, ctx, ProbeReply(error, response))
    requires ledger.Empty? && v.op.phase == ProtocolProbe && ProbeGood(v, error, response)
    ensures Moved(v.op, ProbeReady(v, ctx, error, response).op,
                  [ProbeParsed(v.op.job.original, ctx.now), WriteSent(v.op.job.original, ctx.now)], Written, ctx.now)
  {
  }

  lemma ProbeKeepsInv(v: View, ctx: Ctx, error: ErrorClass, response: Response<LockState>)
    requires Inv(v.op, ctx.now) && Enabled(v, ctx, ProbeReply(error, response))
    ensures Inv(ProbeReady(v, ctx, error, response).op, ctx.now)
    ensures Fuel(ProbeReady(v, ctx, error, response).op) < Fuel(v.op)
  {
    var o, ledger, later := v.op.job.original, Summary(v.op.job, v.op.trace), ProbeReady(v, ctx, error, response).op;
    ReplyFixesLedger(v, ctx, ProbeReply(error, response), ledger);
    if ProbeGood(v, error, response) {
      ProbeDispatches(v, ctx, error, response, ledger);
      MovedTwiceKeepsInv(v.op, later, ProbeParsed(o, ctx.now), WriteSent(o, ctx.now), ctx.now);
    } else {
      ProbeFails(v, ctx, error, response, ledger);
      StayedKeepsInv(v.op, later, ctx.now);
    }
  }

  ghost predicate SetGood(v: View, error: ErrorClass, response: Response<()>)
    requires v.op.pending.Some?
  {
    && !Uncertainty(v.op, error) && v.original.live && v.op.pending.value.target == v.op.job.original
    && v.original.generation == v.op.job.originalGeneration && error == NoError && response.Parsed?
  }

  lemma SetKeepsInv(v: View, ctx: Ctx, error: ErrorClass, response: Response<()>)
    requires Inv(v.op, ctx.now) && Enabled(v, ctx, SetReply(error, response))
    ensures Inv(SetReady(v, ctx, error, response).op, ctx.now)
    ensures Fuel(SetReady(v, ctx, error, response).op) < Fuel(v.op)
  {
    var ledger, later := Summary(v.op.job, v.op.trace), SetReady(v, ctx, error, response).op;
    ReplyFixesLedger(v, ctx, SetReply(error, response), ledger);
    if SetGood(v, error, response) {
      MovedKeepsInv(v.op, later, WriteAcknowledged(ctx.now), ctx.now);
    } else {
      StayedKeepsInv(v.op, later, ctx.now);
    }
  }

  lemma ResetKeepsInv(v: View, ctx: Ctx, error: ErrorClass)
    requires Inv(v.op, ctx.now) && Enabled(v, ctx, ResetReply(error))
    ensures Inv(ResetReady(v, ctx, error).op, ctx.now)
    ensures Fuel(ResetReady(v, ctx, error).op) < Fuel(v.op)
  {
    var ledger, later := Summary(v.op.job, v.op.trace), ResetReady(v, ctx, error).op;
    ReplyFixesLedger(v, ctx, ResetReply(error), ledger);
    if v.op.timedOut || v.op.transportLost || error == DefiniteError {
      StayedKeepsInv(v.op, later, ctx.now);
    } else {
      MovedKeepsInv(v.op, later, ResetReturned(ctx.now), ctx.now);
    }
  }

  ghost predicate CellGood(v: View, error: ErrorClass, response: Response<seq<Cell>>)
    requires v.op.pending.Some?
  {
    && ReplacementValid(Answered(v), v.op.pending.value.target) && !Uncertainty(v.op, error) && error == NoError
    && response.Parsed?
    && (forall i | 0 <= i < |response.value| :: response.value[i].band in v.replacement.value.bands)
    && var serving := ServingCell(response.value);
       serving.Some? && CellMatches(serving.value, v.op.job.request) && Storable(v.replacement.value, serving.value)
  }

  lemma CellKeepsInv(v: View, ctx: Ctx, error: ErrorClass, response: Response<seq<Cell>>)
    requires Inv(v.op, ctx.now) && Enabled(v, ctx, CellReply(error, response))
    ensures Inv(CellReady(v, ctx, error, response).op, ctx.now)
    ensures Fuel(CellReady(v, ctx, error, response).op) < Fuel(v.op)
  {
    var ledger, later := Summary(v.op.job, v.op.trace), CellReady(v, ctx, error, response).op;
    ReplyFixesLedger(v, ctx, CellReply(error, response), ledger);
    if CellGood(v, error, response) {
      MovedKeepsInv(v.op, later, ServingSeen(ledger.ref, ServingCell(response.value).value, ctx.now), ctx.now);
    } else {
      StayedKeepsInv(v.op, later, ctx.now);
    }
  }

  lemma PreReadResets(v: View, ctx: Ctx, state: LockState, ledger: Ledger)
    requires Agrees(v.op, ledger, ctx.now) && v.op.outcome.None? && v.op.pending.Some?
    requires ledger.PreReads? && v.op.phase == PreResetNvm
    requires OriginalValid(Answered(v), v.op.job.original) && !Uncertainty(v.op, NoError)
    requires ctx.now < v.op.deadline && StateMatches(state, v.op.job.request) && ledger.streak == 1
    ensures Moved(v.op, NvmObserved(Answered(v), ctx, v.op.job.original, v.op.pending.value.sentAt, state).op,
                  [NvmSeen(PreReset, v.op.job.original, v.op.pending.value.sentAt, ctx.now, state),
                   ResetSent(v.op.job.original, ctx.now, true, true)], ResetOut, ctx.now)
  {
  }

  lemma PreReadKeepsInv(v: View, ctx: Ctx, state: LockState)
    requires Inv(v.op, ctx.now) && v.op.outcome.None? && v.op.pending.Some? && v.op.phase == PreResetNvm
    requires OriginalValid(Answered(v), v.op.job.original) && !Uncertainty(v.op, NoError)
    ensures Inv(NvmObserved(Answered(v), ctx, v.op.job.original, v.op.pending.value.sentAt, state).op, ctx.now)
    ensures Fuel(NvmObserved(Answered(v), ctx, v.op.job.original, v.op.pending.value.sentAt, state).op) < Fuel(v.op)
  {
    var ledger := Summary(v.op.job, v.op.trace);
    var later := NvmObserved(Answered(v), ctx, v.op.job.original, v.op.pending.value.sentAt, state).op;
    var seen := NvmSeen(PreReset, v.op.job.original, v.op.pending.value.sentAt, ctx.now, state);
    if ctx.now >= v.op.deadline {
      MovedKeepsInv(v.op, later, seen, ctx.now);
    } else if !StateMatches(state, v.op.job.request) || ledger.streak == 0 {
      MovedKeepsInv(v.op, later, seen, ctx.now);
    } else {
      PreReadResets(v, ctx, state, ledger);
      MovedTwiceKeepsInv(v.op, later, seen, ResetSent(v.op.job.original, ctx.now, true, true), ctx.now);
    }
  }

  lemma PostReadLate(v: View, ctx: Ctx, state: LockState, ledger: Ledger)
    requires Agrees(v.op, ledger, ctx.now) && v.op.outcome.None? && v.op.pending.Some?
    requires ledger.PostReads? && !ledger.matched && v.op.phase == PostResetNvm
    requires ctx.now >= v.op.deadline
    ensures Moved(v.op, NvmObserved(Answered(v), ctx, ledger.ref, v.op.pending.value.sentAt, state).op,
                  [NvmSeen(PostReset, ledger.ref, v.op.pending.value.sentAt, ctx.now, state)],
                  PostReads(ledger.ref, ledger.generation, ledger.start, ledger.count + 1,
                            StateMatches(state, v.op.job.request), ctx.now), ctx.now)
  {
  }

  lemma PostReadRetries(v: View, ctx: Ctx, state: LockState, ledger: Ledger)
    requires Agrees(v.op, ledger, ctx.now) && v.op.outcome.None? && v.op.pending.Some?
    requires ledger.PostReads? && !ledger.matched && v.op.phase == PostResetNvm
    requires ctx.now < v.op.deadline && !StateMatches(state, v.op.job.request)
    ensures Moved(v.op, NvmObserved(Answered(v), ctx, ledger.ref, v.op.pending.value.sentAt, state).op,
                  [NvmSeen(PostReset, ledger.ref, v.op.pending.value.sentAt, ctx.now, state)],
                  PostReads(ledger.ref, ledger.generation, ledger.start, ledger.count + 1,
                            StateMatches(state, v.op.job.request), ctx.now), ctx.now)
  {
  }

  lemma PostReadMatches(v: View, ctx: Ctx, state: LockState, ledger: Ledger)
    requires Agrees(v.op, ledger, ctx.now) && v.op.outcome.None? && v.op.pending.Some?
    requires ledger.PostReads? && !ledger.matched && v.op.phase == PostResetNvm
    requires ctx.now < v.op.deadline && StateMatches(state, v.op.job.request)
    ensures Moved(v.op, NvmObserved(Answered(v), ctx, ledger.ref, v.op.pending.value.sentAt, state).op,
                  [NvmSeen(PostReset, ledger.ref, v.op.pending.value.sentAt, ctx.now, state)],
                  PostReads(ledger.ref, ledger.generation, ledger.start, ledger.count + 1,
                            StateMatches(state, v.op.job.request), ctx.now), ctx.now)
  {
  }

  lemma PostReadKeepsInv(v: View, ctx: Ctx, state: LockState, ledger: Ledger)
    requires Agrees(v.op, ledger, ctx.now) && v.op.outcome.None? && v.op.pending.Some?
    requires ledger.PostReads? && !ledger.matched && v.op.phase == PostResetNvm
    requires ledger == Summary(v.op.job, v.op.trace)
    ensures Inv(NvmObserved(Answered(v), ctx, ledger.ref, v.op.pending.value.sentAt, state).op, ctx.now)
    ensures Fuel(NvmObserved(Answered(v), ctx, ledger.ref, v.op.pending.value.sentAt, state).op) < Fuel(v.op)
  {
    if ctx.now >= v.op.deadline {
      PostReadLate(v, ctx, state, ledger);
    } else if !StateMatches(state, v.op.job.request) {
      PostReadRetries(v, ctx, state, ledger);
    } else {
      PostReadMatches(v, ctx, state, ledger);
    }
    MovedKeepsInv(v.op, NvmObserved(Answered(v), ctx, ledger.ref, v.op.pending.value.sentAt, state).op,
                  NvmSeen(PostReset, ledger.ref, v.op.pending.value.sentAt, ctx.now, state), ctx.now);
  }

  ghost predicate NvmGood(v: View, error: ErrorClass, response: Response<LockState>)
    requires v.op.pending.Some?
  {
    var w, source := Answered(v), v.op.pending.value.target;
    && (if v.op.phase == PreResetNvm then OriginalValid(w, source) else ReplacementValid(w, source))
    && !Uncertainty(v.op, error) && error == NoError && response.Parsed?
  }

  lemma NvmFailureKeepsInv(v: View, ctx: Ctx, error: ErrorClass, response: Response<LockState>)
    requires Inv(v.op, ctx.now) && Enabled(v, ctx, NvmReply(error, response)) && !NvmGood(v, error, response)
    ensures Inv(NvmReady(v, ctx, error, response).op, ctx.now)
    ensures Fuel(NvmReady(v, ctx, error, response).op) < Fuel(v.op)
  {
    StayedKeepsInv(v.op, NvmReady(v, ctx, error, response).op, ctx.now);
  }

  lemma NvmKeepsInv(v: View, ctx: Ctx, error: ErrorClass, response: Response<LockState>)
    requires Inv(v.op, ctx.now) && Enabled(v, ctx, NvmReply(error, response))
    ensures Inv(NvmReady(v, ctx, error, response).op, ctx.now)
    ensures Fuel(NvmReady(v, ctx, error, response).op) < Fuel(v.op)
  {
    var ledger := Summary(v.op.job, v.op.trace);
    ReplyFixesLedger(v, ctx, NvmReply(error, response), ledger);
    if !NvmGood(v, error, response) {
      NvmFailureKeepsInv(v, ctx, error, response);
    } else if v.op.phase == PreResetNvm {
      PreReadKeepsInv(v, ctx, response.value);
    } else {
      PostReadKeepsInv(v, ctx, response.value, ledger);
    }
  }

  lemma PollNvmFailure(v: View, ctx: Ctx) returns (state: State, code: State)
    requires v.op.outcome.None? && PollNvm(v, ctx).op.outcome.Some?
    ensures PollNvm(v, ctx) == Fail(v, ctx, state, code)
  {
    var preReset := v.op.phase == PreResetNvm;
    if ctx.now >= v.op.deadline {
      state, code := if preReset then LockAppliedResetRequired else VerificationMismatch, VerificationMismatch;
    } else {
      state, code := if preReset then LockAppliedResetRequired else OutcomeUnknown, OutcomeUnknown;
    }
  }

  lemma PollReprobeFailure(v: View, ctx: Ctx, found: Found) returns (state: State, code: State)
    requires v.op.outcome.None? && PollReprobe(v, ctx, found).op.outcome.Some?
    ensures PollReprobe(v, ctx, found) == Fail(v, ctx, state, code)
  {
    match found
    case Ambiguous => state, code := VerificationMismatch, VerificationMismatch;
    case One(ref, modem) => state, code := OutcomeUnknown, Busy;
    case Nobody => state, code := ReprobeTimeout, ReprobeTimeout;
  }

  lemma PollRegistrationFailure(v: View, ctx: Ctx) returns (state: State, code: State)
    requires v.op.outcome.None? && PollRegistration(v, ctx).op.outcome.Some?
    ensures PollRegistration(v, ctx) == Fail(v, ctx, state, code)
  {
    if v.op.replacement.None? || !ReplacementValid(v, v.op.replacement.value) {
      state, code := OutcomeUnknown, OutcomeUnknown;
    } else {
      state, code := RegistrationTimeout, RegistrationTimeout;
    }
  }

  lemma PollFailure(v: View, ctx: Ctx, found: Found) returns (state: State, code: State)
    requires v.op.outcome.None? && Poll(v, ctx, found).op.outcome.Some?
    ensures Poll(v, ctx, found) == Fail(v, ctx, state, code)
  {
    state, code := if v.op.phase == PreResetNvm then LockAppliedResetRequired else OutcomeUnknown, OutcomeUnknown;
    if !v.op.timedOut && !v.op.transportLost {
      if v.op.phase == PreResetNvm || v.op.phase == PostResetNvm {
        state, code := PollNvmFailure(v, ctx);
      } else if v.op.phase == Reprobe {
        state, code := PollReprobeFailure(v, ctx, found);
      } else if v.op.phase == Registration {
        state, code := PollRegistrationFailure(v, ctx);
      }
    }
  }

  lemma PollFails(v: View, ctx: Ctx, found: Found, ledger: Ledger)
    requires Agrees(v.op, ledger, ctx.now) && Enabled(v, ctx, PollFires(found))
    requires Poll(v, ctx, found).op.outcome.Some?
    ensures Moved(v.op, Poll(v, ctx, found).op, [], ledger, ctx.now)
  {
    var state, code := PollFailure(v, ctx, found);
  }

  lemma PollReads(v: View, ctx: Ctx, found: Found, ledger: Ledger)
    requires Agrees(v.op, ledger, ctx.now) && Enabled(v, ctx, PollFires(found))
    requires v.op.phase == PreResetNvm || v.op.phase == PostResetNvm
    requires ctx.now < v.op.deadline
    ensures Moved(v.op, StartNvmCommand(v, ctx).op, [], ledger, ctx.now)
  {
  }

  lemma PollFindsNobody(v: View, ctx: Ctx, found: Found, ledger: Ledger)
    requires Agrees(v.op, ledger, ctx.now) && Enabled(v, ctx, PollFires(found))
    requires v.op.phase == Reprobe && ledger.Absent? && ctx.now < v.op.deadline
    ensures ledger.polls + 1 < REPROBE_BUDGET
    ensures ledger.start + (ledger.polls + 1) * REPROBE_POLL <= ctx.now < ledger.start + REPROBE_TIMEOUT
    ensures Moved(v.op, PollReprobe(v, ctx, Nobody).op, [StillAbsent(ctx.now)],
                  Absent(ledger.start, ledger.polls + 1), ctx.now)
  {
  }

  lemma PollAdopts(v: View, ctx: Ctx, ref: ModemRef, modem: Modem, ledger: Ledger)
    requires Agrees(v.op, ledger, ctx.now) && Enabled(v, ctx, PollFires(One(ref, modem)))
    requires v.op.phase == Reprobe && ledger.Absent? && !modem.busy
    requires !modem.registered
    ensures Moved(v.op, PollReprobe(v, ctx, One(ref, modem)).op, [Adopted(ref, modem.generation, modem.physdev, true, ctx.now)],
                  Back(ref, modem.generation, ctx.now, 0), ctx.now)
  {
  }

  lemma PollAdoptsRegistered(v: View, ctx: Ctx, ref: ModemRef, modem: Modem, ledger: Ledger)
    requires Agrees(v.op, ledger, ctx.now) && Enabled(v, ctx, PollFires(One(ref, modem)))
    requires v.op.phase == Reprobe && ledger.Absent? && !modem.busy
    requires modem.registered
    ensures Moved(v.op, PollReprobe(v, ctx, One(ref, modem)).op,
                  [Adopted(ref, modem.generation, modem.physdev, true, ctx.now), Registered(ref, ctx.now)],
                  PostReads(ref, modem.generation, ctx.now, 0, false, ctx.now), ctx.now)
  {
  }

  lemma ReprobeKeepsInv(v: View, ctx: Ctx, found: Found, ledger: Ledger)
    requires Agrees(v.op, ledger, ctx.now) && Enabled(v, ctx, PollFires(found))
    requires v.op.phase == Reprobe && ledger.Absent? && ledger == Summary(v.op.job, v.op.trace)
    requires !found.Ambiguous? && (found.One? ==> !found.modem.busy) && (found.Nobody? ==> ctx.now < v.op.deadline)
    ensures Inv(PollReprobe(v, ctx, found).op, ctx.now)
    ensures Fuel(PollReprobe(v, ctx, found).op) < Fuel(v.op)
  {
    if found.Nobody? {
      PollFindsNobody(v, ctx, found, ledger);
      MovedKeepsInv(v.op, PollReprobe(v, ctx, found).op, StillAbsent(ctx.now), ctx.now);
    } else {
      AdoptKeepsInv(v, ctx, found.ref, found.modem, ledger);
    }
  }

  lemma AdoptKeepsInv(v: View, ctx: Ctx, ref: ModemRef, modem: Modem, ledger: Ledger)
    requires Agrees(v.op, ledger, ctx.now) && Enabled(v, ctx, PollFires(One(ref, modem)))
    requires v.op.phase == Reprobe && ledger.Absent? && ledger == Summary(v.op.job, v.op.trace) && !modem.busy
    ensures Inv(PollReprobe(v, ctx, One(ref, modem)).op, ctx.now)
    ensures Fuel(PollReprobe(v, ctx, One(ref, modem)).op) < Fuel(v.op)
  {
    var adopted := Adopted(ref, modem.generation, modem.physdev, true, ctx.now);
    if modem.registered {
      PollAdoptsRegistered(v, ctx, ref, modem, ledger);
      MovedTwiceKeepsInv(v.op, PollReprobe(v, ctx, One(ref, modem)).op, adopted, Registered(ref, ctx.now), ctx.now);
    } else {
      PollAdopts(v, ctx, ref, modem, ledger);
      MovedKeepsInv(v.op, PollReprobe(v, ctx, One(ref, modem)).op, adopted, ctx.now);
    }
  }

  lemma PollRegisters(v: View, ctx: Ctx, found: Found, ledger: Ledger)
    requires Agrees(v.op, ledger, ctx.now) && Enabled(v, ctx, PollFires(found))
    requires v.op.phase == Registration && ledger.Back?
    requires ReplacementValid(v, ledger.ref) && v.replacement.value.registered
    ensures Moved(v.op, PollRegistration(v, ctx).op, [Registered(ledger.ref, ctx.now)],
                  PostReads(ledger.ref, ledger.generation, ctx.now, 0, false, ctx.now), ctx.now)
  {
  }

  lemma PollKeepsSearching(v: View, ctx: Ctx, found: Found, ledger: Ledger)
    requires Agrees(v.op, ledger, ctx.now) && Enabled(v, ctx, PollFires(found))
    requires v.op.phase == Registration && ledger.Back?
    requires ReplacementValid(v, ledger.ref) && !v.replacement.value.registered && ctx.now < v.op.deadline
    ensures ledger.polls + 1 < REGISTRATION_BUDGET
    ensures ledger.start + (ledger.polls + 1) * REGISTRATION_POLL <= ctx.now < ledger.start + REGISTRATION_TIMEOUT
    ensures Moved(v.op, PollRegistration(v, ctx).op, [StillSearching(ctx.now)],
                  Back(ledger.ref, ledger.generation, ledger.start, ledger.polls + 1), ctx.now)
  {
  }

  lemma RegistrationKeepsInv(v: View, ctx: Ctx, found: Found, ledger: Ledger)
    requires Agrees(v.op, ledger, ctx.now) && Enabled(v, ctx, PollFires(found))
    requires v.op.phase == Registration && ledger.Back? && ledger == Summary(v.op.job, v.op.trace)
    requires ReplacementValid(v, ledger.ref) && (v.replacement.value.registered || ctx.now < v.op.deadline)
    ensures Inv(PollRegistration(v, ctx).op, ctx.now)
    ensures Fuel(PollRegistration(v, ctx).op) < Fuel(v.op)
  {
    if v.replacement.value.registered {
      PollRegisters(v, ctx, found, ledger);
      MovedKeepsInv(v.op, PollRegistration(v, ctx).op, Registered(ledger.ref, ctx.now), ctx.now);
    } else {
      PollKeepsSearching(v, ctx, found, ledger);
      MovedKeepsInv(v.op, PollRegistration(v, ctx).op, StillSearching(ctx.now), ctx.now);
    }
  }

  lemma PollKeepsInv(v: View, ctx: Ctx, found: Found)
    requires Inv(v.op, ctx.now) && Enabled(v, ctx, PollFires(found))
    ensures Inv(Poll(v, ctx, found).op, ctx.now)
    ensures Fuel(Poll(v, ctx, found).op) < Fuel(v.op)
  {
    var ledger, later := Summary(v.op.job, v.op.trace), Poll(v, ctx, found).op;
    ReplyFixesLedger(v, ctx, PollFires(found), ledger);
    if later.outcome.Some? {
      PollFails(v, ctx, found, ledger);
      StayedKeepsInv(v.op, later, ctx.now);
    } else if v.op.phase == Reprobe {
      ReprobeKeepsInv(v, ctx, found, ledger);
    } else if v.op.phase == Registration {
      RegistrationKeepsInv(v, ctx, found, ledger);
    } else {
      PollReads(v, ctx, found, ledger);
      StayedKeepsInv(v.op, later, ctx.now);
    }
  }

  /** Every callback of every run keeps the operation and its trace in agreement and burns
      at least one unit of fuel. */
  lemma StepKeepsInv(v: View, ctx: Ctx, input: Input)
    requires Inv(v.op, ctx.now) && Enabled(v, ctx, input)
    ensures Inv(Step(v, ctx, input).op, ctx.now)
    ensures Fuel(Step(v, ctx, input).op) < Fuel(v.op)
  {
    match input
    case ProbeReply(error, probe) => ProbeKeepsInv(v, ctx, error, probe);
    case SetReply(error, ack) => SetKeepsInv(v, ctx, error, ack);
    case NvmReply(error, nvm) => NvmKeepsInv(v, ctx, error, nvm);
    case ResetReply(error) => ResetKeepsInv(v, ctx, error);
    case CellReply(error, scan) => CellKeepsInv(v, ctx, error, scan);
    case PollFires(found) => PollKeepsInv(v, ctx, found);
  }
}
