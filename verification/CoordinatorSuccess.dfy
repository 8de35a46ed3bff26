/** Every valid request can be verified: from the start of the operation, with any modem that
    comes back on its slot, there is a run that ends with success. */
module CoordinatorSuccess {
  import opened Common
  import opened EarfcnTable
  import opened LockTypes
  import opened MutationPolicy
  import opened Coordinator
  import opened CoordinatorRuns
  import opened CoordinatorTheorems
  import opened CoordinatorOutcomes
  import LockGrammar

  /** The modem before the reset, and the object that comes back after it. */
  datatype Pair = Pair(modem: Modem, ref: ModemRef, back: Modem)

  ghost predicate PairOk(job: Job, p: Pair) {
    && p.modem.live && p.modem.attestable && p.modem.generation == job.originalGeneration
    && job.physdev != "" && p.modem.physdev == Some(job.physdev)
    && p.ref != job.original && p.back.live && p.back.attestable && p.back.generation != job.originalGeneration
    && p.back.physdev == Some(job.physdev) && !p.back.busy && p.back.registered
    && (job.request.SetLock? ==>
          EarfcnToBand(job.request.earfcn).Some? && EarfcnToBand(job.request.earfcn).value in p.back.bands)
  }

  /** No timeout, no lost transport. */
  ghost predicate Calm(op: Op, job: Job) {
    op.job == job && !op.timedOut && !op.transportLost
  }

  /** The report of the requested lock. */
  function Shown(request: Request): LockState {
    match request
    case ClearLock => LockState(false, false, 65535, 65535, 0)
    case SetLock(earfcn, pci) => LockState(true, pci.Some?, earfcn, if pci.Some? then pci.value else 65535, 0)
  }

  /** The requested cell, serving. */
  function Wanted(request: Request): Cell
    requires request.SetLock? && EarfcnToBand(request.earfcn).Some?
  {
    Cell(true, request.earfcn, if request.pci.Some? then request.pci.value else 0, EarfcnToBand(request.earfcn).value, -100, -100)
  }

  function Expected(request: Request): Report {
    if request.ClearLock? then Verified(ClearedVerified, None)
    else if EarfcnToBand(request.earfcn).Some? then Verified(AppliedVerified, Some(Wanted(request)))
    else Failure(VerificationMismatch, VerificationMismatch)
  }

  ghost predicate Succeeds(op: Op, now: int, ticks: seq<Tick>, end: Op, report: Report) {
    IsRun(op, now, ticks, end) && end.outcome.Some? && end.outcome.value.report == report
  }

  // ----- what a callback leaves alone -----------------------------------------------------------

  ghost predicate SameRun(op: Op, next: Op) {
    next.job == op.job && next.timedOut == op.timedOut && next.transportLost == op.transportLost
  }

  ghost predicate SameHold(op: Op, next: Op) {
    SameRun(op, next) && next.replacement == op.replacement && next.replacementGeneration == op.replacementGeneration
  }

  lemma ProbeKeeps(v: View, ctx: Ctx, error: ErrorClass, probe: Response<LockState>)
    requires v.op.pending.Some?
    ensures SameHold(v.op, ProbeReady(v, ctx, error, probe).op)
  {
    if error == NoError && probe.Parsed? {
      DispatchKeeps(Log(Answered(v), ProbeParsed(v.op.pending.value.target, ctx.now)), ctx);
    }
  }

  lemma DispatchKeeps(v: View, ctx: Ctx)
    ensures SameHold(v.op, DispatchSet(v, ctx).op)
  {
  }

  lemma SetKeeps(v: View, ctx: Ctx, error: ErrorClass, ack: Response<()>)
    requires v.op.pending.Some? && v.op.outcome.None?
    ensures var next := SetReady(v, ctx, error, ack).op; SameHold(v.op, next) && (next.outcome.None? ==> next.streak == 0)
  {
  }

  lemma ActKeeps(seen: View, ctx: Ctx, decision: Decision)
    ensures var next := ActOn(seen, ctx, decision).op; SameHold(seen.op, next) && next.deadline == seen.op.deadline
  {
    var preReset := seen.op.phase == PreResetNvm;
    if ctx.now >= seen.op.deadline {
      CompleteKeeps(seen, ctx, Failure(if preReset then LockAppliedResetRequired else VerificationMismatch, VerificationMismatch));
    } else if decision != Retry {
      if preReset { ResetStartKeeps(seen, ctx); } else { CompleteKeeps(seen, ctx, Verified(ClearedVerified, None)); }
    }
  }

  lemma CompleteKeeps(v: View, ctx: Ctx, report: Report)
    ensures SameHold(v.op, Complete(v, ctx, report).op) && Complete(v, ctx, report).op.deadline == v.op.deadline
  {
  }

  lemma ResetStartKeeps(v: View, ctx: Ctx)
    ensures SameHold(v.op, StartReset(v, ctx).op) && StartReset(v, ctx).op.deadline == v.op.deadline
  {
  }

  lemma NvmKeeps(v: View, ctx: Ctx, error: ErrorClass, nvm: Response<LockState>)
    requires v.op.pending.Some?
    ensures var next := NvmReady(v, ctx, error, nvm).op; SameHold(v.op, next) && next.deadline == v.op.deadline
  {
    if nvm.Parsed? {
      var w, sent := Answered(v), v.op.pending.value;
      ActKeeps(Observed(w, ctx, sent.target, sent.sentAt, nvm.value), ctx,
               Decide(StageOf(w.op.phase), w.op.streak, ObservationOf(w.op.job, nvm.value)));
    }
  }

  lemma ResetKeeps(v: View, ctx: Ctx, error: ErrorClass)
    requires v.op.pending.Some?
    ensures SameHold(v.op, ResetReady(v, ctx, error).op)
  {
  }

  lemma ReadPollKeeps(v: View, ctx: Ctx)
    ensures var next := PollNvm(v, ctx).op;
            SameHold(v.op, next) && next.deadline == v.op.deadline && next.streak == v.op.streak
  {
  }

  lemma ReprobeKeeps(v: View, ctx: Ctx, found: Found)
    requires v.op.outcome.None? && v.op.phase == Reprobe
    ensures var next := PollReprobe(v, ctx, found).op;
            SameRun(v.op, next) && (next.phase == PostResetNvm ==> next.streak == 0)
  {
    if found.One? && !found.modem.busy { AdoptKeeps(v, ctx, found.ref, found.modem); }
  }

  lemma AdoptKeeps(v: View, ctx: Ctx, ref: ModemRef, modem: Modem)
    requires !modem.busy
    ensures var next := PollReprobe(v, ctx, One(ref, modem)).op;
            SameRun(v.op, next) && (next.phase == PostResetNvm ==> next.streak == 0)
  {
  }

  lemma CellKeeps(v: View, ctx: Ctx, error: ErrorClass, scan: Response<seq<Cell>>)
    requires v.op.pending.Some?
    ensures SameHold(v.op, CellReady(v, ctx, error, scan).op)
  {
  }

  lemma RegistrationKeeps(v: View, ctx: Ctx)
    ensures SameRun(v.op, PollRegistration(v, ctx).op)
  {
  }

  lemma PollKeeps(v: View, ctx: Ctx, found: Found)
    requires v.op.outcome.None?
    ensures SameRun(v.op, Poll(v, ctx, found).op)
  {
    if !v.op.timedOut && !v.op.transportLost {
      match v.op.phase
      case PreResetNvm => ReadPollKeeps(v, ctx);
      case PostResetNvm => ReadPollKeeps(v, ctx);
      case Reprobe => ReprobeKeeps(v, ctx, found);
      case Registration => RegistrationKeeps(v, ctx);
      case _ =>
    }
  }

  /** No callback changes what the operation is about, or takes back a timeout or a loss. */
  lemma StepKeepsFlags(v: View, ctx: Ctx, input: Input)
    requires Enabled(v, ctx, input)
    ensures SameRun(v.op, Step(v, ctx, input).op)
  {
    match input
    case ProbeReply(error, probe) => ProbeKeeps(v, ctx, error, probe);
    case SetReply(error, ack) => SetKeeps(v, ctx, error, ack);
    case NvmReply(error, nvm) => NvmKeeps(v, ctx, error, nvm);
    case ResetReply(error) => ResetKeeps(v, ctx, error);
    case CellReply(error, scan) => CellKeeps(v, ctx, error, scan);
    case PollFires(found) => PollKeeps(v, ctx, found);
  }

  // ----- one tick in front of a run ------------------------------------------------------------------

  lemma Prepend(op: Op, now: int, tick: Tick, ticks: seq<Tick>, end: Op, report: Report)
    requires Allowed(op, now, tick) && Succeeds(Apply(op, now, tick), TimeAfter(now, tick), ticks, end, report)
    ensures Succeeds(op, now, [tick] + ticks, end, report)
  {
    assert ([tick] + ticks)[0] == tick && ([tick] + ticks)[1..] == ticks;
  }

  /** The operation has adopted the object that came back. */
  ghost predicate Joined(op: Op, p: Pair) {
    op.replacement == Some(p.ref) && op.replacementGeneration == p.back.generation
  }

  lemma FromScan(op: Op, job: Job, p: Pair, now: int) returns (ticks: seq<Tick>, end: Op)
    requires PairOk(job, p) && Calm(op, job) && Joined(op, p) && job.request.SetLock? && LockGrammar.ValidRequest(job.request)
    requires GoesOn(op, CellVerify, Scan, p.ref, now)
    ensures Succeeds(op, now, ticks, end, Expected(job.request))
  {
    var c := Wanted(job.request);
    var ctx, input := Ctx(now, true), CellReply(NoError, Parsed([c]));
    var v := View(op, p.modem, Some(p.back));
    CellDecides(v, ctx, NoError, Parsed([c]));
    assert ServesAt([c], 0);
    assert ShowsCell(v, [c], c);
    var tick := Callback(ctx, p.modem, Some(p.back), input);
    end := Step(v, ctx, input).op;
    ticks := [tick];
    Prepend(op, now, tick, [], end, Expected(job.request));
  }

  lemma FromLastRead(op: Op, job: Job, p: Pair, now: int) returns (ticks: seq<Tick>, end: Op)
    requires PairOk(job, p) && Calm(op, job) && Joined(op, p) && LockGrammar.ValidRequest(job.request)
    requires GoesOn(op, PostResetNvm, ReadNvm, p.ref, now) && op.streak == 0 && now < op.deadline
    ensures Succeeds(op, now, ticks, end, Expected(job.request))
  {
    var ctx, nvm := Ctx(now, true), Parsed(Shown(job.request));
    var v := View(op, p.modem, Some(p.back));
    LastReadsDecide(v, ctx, NoError, nvm);
    NvmKeeps(v, ctx, NoError, nvm);
    var tick := Callback(ctx, p.modem, Some(p.back), NvmReply(NoError, nvm));
    var next := Step(v, ctx, NvmReply(NoError, nvm)).op;
    var rest: seq<Tick> := [];
    end := next;
    if job.request.SetLock? { rest, end := FromScan(next, job, p, now); }
    Prepend(op, now, tick, rest, end, Expected(job.request));
    ticks := [tick] + rest;
  }

  lemma FromReprobe(op: Op, job: Job, p: Pair, now: int) returns (ticks: seq<Tick>, end: Op)
    requires PairOk(job, p) && Calm(op, job) && LockGrammar.ValidRequest(job.request)
    requires WaitsIn(op, Reprobe, 500_000, now)
    ensures Succeeds(op, now, ticks, end, Expected(job.request))
  {
    var ctx, found := Ctx(now + 500_000, true), One(p.ref, p.back);
    var v := View(op, p.modem, None);
    ReprobeDecides(v, ctx, found);
    ReprobeKeeps(v, ctx, found);
    var tick := Callback(ctx, p.modem, None, PollFires(found));
    var rest;
    rest, end := FromLastRead(Step(v, ctx, PollFires(found)).op, job, p, ctx.now);
    Prepend(op, now, tick, rest, end, Expected(job.request));
    ticks := [tick] + rest;
  }

  lemma FromReset(op: Op, job: Job, p: Pair, now: int) returns (ticks: seq<Tick>, end: Op)
    requires PairOk(job, p) && Calm(op, job) && LockGrammar.ValidRequest(job.request)
    requires GoesOn(op, ResetCommand, Reset, job.original, now)
    ensures Succeeds(op, now, ticks, end, Expected(job.request))
  {
    var ctx, v := Ctx(now, true), View(op, p.modem, None);
    ResetDecides(v, ctx, NoError);
    ResetKeeps(v, ctx, NoError);
    var tick := Callback(ctx, p.modem, None, ResetReply(NoError));
    var rest;
    rest, end := FromReprobe(Step(v, ctx, ResetReply(NoError)).op, job, p, now);
    Prepend(op, now, tick, rest, end, Expected(job.request));
    ticks := [tick] + rest;
  }

  lemma FromSecondRead(op: Op, job: Job, p: Pair, now: int) returns (ticks: seq<Tick>, end: Op)
    requires PairOk(job, p) && Calm(op, job) && LockGrammar.ValidRequest(job.request)
    requires GoesOn(op, PreResetNvm, ReadNvm, job.original, now) && op.streak == 1 && now < op.deadline
    ensures Succeeds(op, now, ticks, end, Expected(job.request))
  {
    var ctx, nvm, v := Ctx(now, true), Parsed(Shown(job.request)), View(op, p.modem, None);
    FirstReadsDecide(v, ctx, NoError, nvm);
    NvmKeeps(v, ctx, NoError, nvm);
    var tick := Callback(ctx, p.modem, None, NvmReply(NoError, nvm));
    var rest;
    rest, end := FromReset(Step(v, ctx, NvmReply(NoError, nvm)).op, job, p, now);
    Prepend(op, now, tick, rest, end, Expected(job.request));
    ticks := [tick] + rest;
  }

  lemma FromWait(op: Op, job: Job, p: Pair, now: int) returns (ticks: seq<Tick>, end: Op)
    requires PairOk(job, p) && Calm(op, job) && LockGrammar.ValidRequest(job.request)
    requires WaitsIn(op, PreResetNvm, 1_000_000, now) && op.streak == 1 && now + 1_000_000 < op.deadline
    ensures Succeeds(op, now, ticks, end, Expected(job.request))
  {
    var ctx, v := Ctx(now + 1_000_000, true), View(op, p.modem, None);
    ReadPollDecides(v, ctx, Nobody);
    ReadPollKeeps(v, ctx);
    var tick := Callback(ctx, p.modem, None, PollFires(Nobody));
    var rest;
    rest, end := FromSecondRead(Step(v, ctx, PollFires(Nobody)).op, job, p, ctx.now);
    Prepend(op, now, tick, rest, end, Expected(job.request));
    ticks := [tick] + rest;
  }

  lemma FromFirstRead(op: Op, job: Job, p: Pair, now: int) returns (ticks: seq<Tick>, end: Op)
    requires PairOk(job, p) && Calm(op, job) && LockGrammar.ValidRequest(job.request)
    requires GoesOn(op, PreResetNvm, ReadNvm, job.original, now) && op.streak == 0 && op.deadline == now + 10_000_000
    ensures Succeeds(op, now, ticks, end, Expected(job.request))
  {
    var ctx, nvm, v := Ctx(now, true), Parsed(Shown(job.request)), View(op, p.modem, None);
    FirstReadsDecide(v, ctx, NoError, nvm);
    NvmKeeps(v, ctx, NoError, nvm);
    var tick := Callback(ctx, p.modem, None, NvmReply(NoError, nvm));
    var rest;
    rest, end := FromWait(Step(v, ctx, NvmReply(NoError, nvm)).op, job, p, now);
    Prepend(op, now, tick, rest, end, Expected(job.request));
    ticks := [tick] + rest;
  }

  lemma FromWrite(op: Op, job: Job, p: Pair, now: int) returns (ticks: seq<Tick>, end: Op)
    requires PairOk(job, p) && Calm(op, job) && LockGrammar.ValidRequest(job.request)
    requires GoesOn(op, SetCommand, Write, job.original, now)
    ensures Succeeds(op, now, ticks, end, Expected(job.request))
  {
    var ctx, v := Ctx(now, true), View(op, p.modem, None);
    SetDecides(v, ctx, NoError, Parsed(()));
    SetKeeps(v, ctx, NoError, Parsed(()));
    var tick := Callback(ctx, p.modem, None, SetReply(NoError, Parsed(())));
    var rest;
    rest, end := FromFirstRead(Step(v, ctx, SetReply(NoError, Parsed(()))).op, job, p, now);
    Prepend(op, now, tick, rest, end, Expected(job.request));
    ticks := [tick] + rest;
  }

  /** For every valid request on a live, attested modem, and every free, registered object that
      comes back on its slot (on the requested band, for a set), some run from the start of the
      operation ends with the success of that request. */
  lemma EveryRequestCanSucceed(id: OpId, request: Request, original: ModemRef, modem: Modem, ctx: Ctx, ref: ModemRef, back: Modem)
    returns (ticks: seq<Tick>, end: Op)
    requires LockGrammar.ValidRequest(request) && Attested(modem)
    requires ref != original && Attested(back) && back.generation != modem.generation && back.physdev == modem.physdev
    requires !back.busy && back.registered
    requires request.SetLock? ==> EarfcnToBand(request.earfcn).value in back.bands
    ensures IsRun(Begin(id, request, original, modem, modem.physdev.value, ctx).op, ctx.now, ticks, end)
    ensures end.outcome.Some? && end.outcome.value.report ==
            if request.ClearLock? then Verified(ClearedVerified, None) else Verified(AppliedVerified, Some(Wanted(request)))
  {
    var op := Begin(id, request, original, modem, modem.physdev.value, ctx).op;
    var p, now, lock := Pair(modem, ref, back), Ctx(ctx.now, true), Parsed(Shown(request));
    var v := View(op, modem, None);
    ProbeDecides(v, now, NoError, lock);
    ProbeKeeps(v, now, NoError, lock);
    var tick := Callback(now, modem, None, ProbeReply(NoError, lock));
    var rest;
    rest, end := FromWrite(Step(v, now, ProbeReply(NoError, lock)).op, op.job, p, ctx.now);
    Prepend(op, ctx.now, tick, rest, end, Expected(request));
    ticks := [tick] + rest;
  }
}
