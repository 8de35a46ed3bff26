/** The coordinator's guarantees, read off its traces: nothing dangerous is sent twice, the
    reset is earned, a verified report means every stage was passed in order, and every run
    ends within a fixed number of callbacks. */
module CoordinatorTheorems {
  import opened Common
  import opened LockTypes
  import opened MutationPolicy
  import opened Coordinator
  import opened CoordinatorRuns

  // ----- reading a legal trace ----------------------------------------------------------

  lemma {:induction false} LegalPrefix(job: Job, tr: seq<Event>, k: nat)
    requires Legal(job, tr) && k <= |tr|
    ensures Legal(job, tr[..k])
  {
    if k == |tr| {
      assert tr[..k] == tr;
    } else {
      var shorter := tr[..|tr| - 1];
      LegalPrefix(job, shorter, k);
      assert shorter[..k] == tr[..k];
    }
  }

  function Rank(ledger: Ledger): nat {
    match ledger
    case Empty => 0
    case Probed => 1
    case Written => 2
    case PreReads(_, _, _, _) => 3
    case ResetOut => 4
    case Absent(_, _) => 5
    case Back(_, _, _, _) => 6
    case PostReads(_, _, _, _, _, _) => 7
    case Served(_, _) => 8
    case Bad => 9
  }

  lemma AfterRank(job: Job, ledger: Ledger, e: Event)
    ensures Rank(ledger) <= Rank(After(job, ledger, e))
  {
  }

  /** A trace never goes back to an earlier stage of the protocol. */
  lemma {:induction false} RankGrows(job: Job, tr: seq<Event>, k: nat)
    requires k <= |tr|
    ensures Rank(Summary(job, tr[..k])) <= Rank(Summary(job, tr))
  {
    if k == |tr| {
      assert tr[..k] == tr;
    } else {
      var shorter := tr[..|tr| - 1];
      RankGrows(job, shorter, k);
      assert shorter[..k] == tr[..k];
      AfterRank(job, Summary(job, shorter), tr[|tr| - 1]);
    }
  }

  lemma SentMovesOn(job: Job, tr: seq<Event>, i: nat)
    requires Legal(job, tr) && i < |tr|
    ensures tr[i].WriteSent? ==> Rank(Summary(job, tr[..i])) < 2 <= Rank(Summary(job, tr[..i + 1]))
    ensures tr[i].ResetSent? ==> Rank(Summary(job, tr[..i])) < 4 <= Rank(Summary(job, tr[..i + 1]))
  {
    LegalPrefix(job, tr, i);
    LegalPrefix(job, tr, i + 1);
    assert tr[..i + 1] == tr[..i] + [tr[i]];
    SummaryAppend(job, tr[..i], tr[i]);
  }

  /** At most one lock write and at most one reset are ever dispatched. */
  lemma AtMostOneWriteAndReset(job: Job, tr: seq<Event>, i: nat, j: nat)
    requires Legal(job, tr) && i < j < |tr|
    ensures !(tr[i].WriteSent? && tr[j].WriteSent?)
    ensures !(tr[i].ResetSent? && tr[j].ResetSent?)
  {
    SentMovesOn(job, tr, i);
    SentMovesOn(job, tr, j);
    RankGrows(job, tr[..j], i + 1);
    assert tr[..j][..i + 1] == tr[..i + 1];
  }

  ghost predicate MatchAt(job: Job, tr: seq<Event>, i: int) {
    0 <= i < |tr| && tr[i].NvmSeen? && StateMatches(tr[i].state, job.request)
  }

  /** Positions lo..hi are at most ten reads of one stage on one modem, each sent at least a
      second after the previous answer. */
  ghost predicate Reads(tr: seq<Event>, lo: nat, hi: nat, stage: Stage, target: ModemRef) {
    && lo <= hi <= |tr| && hi - lo <= READ_BUDGET
    && (forall i | lo <= i < hi :: tr[i].NvmSeen? && tr[i].stage == stage && tr[i].target == target)
    && (forall i, j | lo <= i < j < hi && j == i + 1 :: tr[i].at + NVM_VERIFY_POLL <= tr[j].sentAt)
  }

  /** Probe, write and acknowledgement on the original modem, then pre-reset reads. */
  ghost predicate Opening(job: Job, tr: seq<Event>, hi: nat) {
    && 3 <= hi <= |tr|
    && tr[0].ProbeParsed? && tr[0].target == job.original
    && tr[1].WriteSent? && tr[1].target == job.original
    && tr[2].WriteAcknowledged?
    && Reads(tr, 3, hi, PreReset, job.original)
  }

  /** No two consecutive matches end before position hi. */
  ghost predicate NoPair(job: Job, tr: seq<Event>, hi: int) {
    forall i, j | 3 <= i < j < hi && j == i + 1 :: !(MatchAt(job, tr, i) && MatchAt(job, tr, j))
  }

  lemma {:induction false} OpeningShape(job: Job, tr: seq<Event>)
    requires Summary(job, tr).PreReads?
    ensures Opening(job, tr, |tr|)
    ensures var ledger := Summary(job, tr);
            && |tr| == 3 + ledger.count && ledger.start == tr[2].at && ledger.last == tr[|tr| - 1].at
            && ledger.streak <= 2
            && (ledger.streak >= 1 <==> MatchAt(job, tr, |tr| - 1))
            && (ledger.streak == 2 ==> MatchAt(job, tr, |tr| - 2))
            && NoPair(job, tr, if ledger.streak == 2 then |tr| - 1 else |tr|)
  {
    var shorter, e := tr[..|tr| - 1], tr[|tr| - 1];
    assert tr == shorter + [e];
    if e.WriteAcknowledged? {
      StartShape(job, shorter);
    } else {
      OpeningShape(job, shorter);
      forall i | 0 <= i < |shorter| ensures MatchAt(job, tr, i) == MatchAt(job, shorter, i) {
      }
      assert NoPair(job, tr, |shorter|);
    }
  }

  lemma StartShape(job: Job, tr: seq<Event>)
    requires Summary(job, tr).Written?
    ensures |tr| == 2 && tr[0].ProbeParsed? && tr[0].target == job.original
    ensures tr[1].WriteSent? && tr[1].target == job.original
  {
    var one := tr[..|tr| - 1];
    assert Summary(job, one).Probed?;
    var none := one[..|one| - 1];
    assert Summary(job, none).Empty?;
  }

  /** The reset at position r was sent to the original modem while it was valid, with no
      timeout or lost transport recorded, in the callback that saw the second of two
      consecutive matching reads (the first such pair), a second or more apart, and before
      the ten seconds that follow the write acknowledgement are over. */
  ghost predicate ResetEarned(job: Job, tr: seq<Event>, r: nat) {
    && 5 <= r < |tr|
    && Opening(job, tr, r)
    && tr[r].ResetSent? && tr[r].target == job.original && tr[r].targetValid && tr[r].clean
    && MatchAt(job, tr, r - 1) && MatchAt(job, tr, r - 2)
    && NoPair(job, tr, r - 1)
    && tr[r].at == tr[r - 1].at < tr[2].at + NVM_VERIFY_TIMEOUT
  }

  lemma ResetIsEarned(job: Job, tr: seq<Event>, r: nat)
    requires Legal(job, tr) && r < |tr| && tr[r].ResetSent?
    ensures ResetEarned(job, tr, r)
  {
    LegalPrefix(job, tr, r + 1);
    assert tr[..r + 1] == tr[..r] + [tr[r]];
    SummaryAppend(job, tr[..r], tr[r]);
    OpeningShape(job, tr[..r]);
    var head := tr[..r];
    forall i | 0 <= i < r ensures MatchAt(job, tr, i) == MatchAt(job, head, i) {
    }
  }

  // ----- what a verified report means ---------------------------------------------------

  /** Positions of the milestones after the reset. */
  datatype Milestones = Milestones(reset: nat, adopted: nat, registered: nat)

  /** A different, attested object of another generation on the same slot. */
  ghost predicate Replaces(job: Job, e: Event) {
    && e.Adopted? && e.target != job.original && e.generation != job.originalGeneration
    && e.physdev == Some(job.physdev) && e.attested
  }

  lemma {:induction false} AbsentShape(job: Job, tr: seq<Event>) returns (r: nat)
    requires Summary(job, tr).Absent?
    ensures ResetEarned(job, tr, r) && r + 2 + Summary(job, tr).polls == |tr|
    ensures tr[r + 1].ResetReturned? && forall i | r + 1 < i < |tr| :: tr[i].StillAbsent?
    ensures Summary(job, tr).polls < REPROBE_BUDGET
  {
    var shorter, e := tr[..|tr| - 1], tr[|tr| - 1];
    assert tr == shorter + [e];
    if e.ResetReturned? {
      ResetIsLast(job, shorter);
      r := |tr| - 2;
    } else {
      r := AbsentShape(job, shorter);
    }
    assert tr[r] == shorter[r];
    ResetIsEarned(job, tr, r);
  }

  lemma ResetIsLast(job: Job, tr: seq<Event>)
    requires Summary(job, tr).ResetOut?
    ensures tr != [] && tr[|tr| - 1].ResetSent?
  {
  }

  lemma {:induction false} BackShape(job: Job, tr: seq<Event>) returns (m: Milestones)
    requires Summary(job, tr).Back?
    ensures m.reset + 1 < m.adopted < |tr| && ResetEarned(job, tr, m.reset)
    ensures m.adopted - (m.reset + 2) < REPROBE_BUDGET
    ensures tr[m.reset + 1].ResetReturned? && forall i | m.reset + 1 < i < m.adopted :: tr[i].StillAbsent?
    ensures Replaces(job, tr[m.adopted])
    ensures tr[m.adopted].target == Summary(job, tr).ref
    ensures tr[m.adopted].generation == Summary(job, tr).generation
    ensures |tr| == m.adopted + 1 + Summary(job, tr).polls && Summary(job, tr).polls < REGISTRATION_BUDGET
    ensures forall i | m.adopted < i < |tr| :: tr[i].StillSearching?
  {
    var shorter, e := tr[..|tr| - 1], tr[|tr| - 1];
    assert tr == shorter + [e];
    if e.Adopted? {
      var r := AbsentShape(job, shorter);
      m := Milestones(r, |tr| - 1, 0);
    } else {
      m := BackShape(job, shorter);
    }
    assert tr[m.reset] == shorter[m.reset];
    ResetIsEarned(job, tr, m.reset);
  }

  /** The earned reset, its return, the adoption and the observed registration, in order. */
  ghost predicate Recovered(job: Job, tr: seq<Event>, m: Milestones) {
    && m.reset + 1 < m.adopted < m.registered < |tr|
    && ResetEarned(job, tr, m.reset)
    && tr[m.reset + 1].ResetReturned?
    && Replaces(job, tr[m.adopted])
    && tr[m.registered].Registered? && tr[m.registered].target == tr[m.adopted].target
    && m.adopted - (m.reset + 2) < REPROBE_BUDGET
    && m.registered - (m.adopted + 1) < REGISTRATION_BUDGET
  }

  /** The recovered modem and the post-reset reads on it so far. */
  ghost predicate PostReading(job: Job, tr: seq<Event>, m: Milestones, ledger: Ledger)
    requires ledger.PostReads?
  {
    Recovered(job, tr, m) && PostPart(job, tr, m, ledger)
  }

  ghost predicate PostPart(job: Job, tr: seq<Event>, m: Milestones, ledger: Ledger)
    requires ledger.PostReads?
  {
    && m.adopted < m.registered < |tr| && tr[m.adopted].Adopted?
    && tr[m.adopted].target == ledger.ref && tr[m.adopted].generation == ledger.generation
    && |tr| == m.registered + 1 + ledger.count && (ledger.count > 0 ==> tr[|tr| - 1].NvmSeen? && ledger.last == tr[|tr| - 1].at)
    && Reads(tr, m.registered + 1, |tr|, PostReset, ledger.ref)
    && (ledger.matched <==> m.registered + 1 < |tr| && MatchAt(job, tr, |tr| - 1))
  }

  /** Recovery is not undone by what follows. */
  lemma RecoveredStays(job: Job, shorter: seq<Event>, tr: seq<Event>, m: Milestones)
    requires Recovered(job, shorter, m) && Legal(job, tr) && shorter <= tr
    ensures Recovered(job, tr, m)
  {
    assert tr[m.reset] == shorter[m.reset];
    ResetIsEarned(job, tr, m.reset);
  }

  lemma PostOpens(job: Job, tr: seq<Event>) returns (m: Milestones)
    requires Summary(job, tr).PostReads? && tr[|tr| - 1].Registered?
    ensures PostReading(job, tr, m, Summary(job, tr))
  {
    var shorter := tr[..|tr| - 1];
    var b := BackShape(job, shorter);
    m := b.(registered := |tr| - 1);
    assert tr[m.reset] == shorter[m.reset];
    ResetIsEarned(job, tr, m.reset);
  }

  lemma PostPartContinues(job: Job, tr: seq<Event>, m: Milestones, ledger: Ledger)
    requires tr != [] && tr[|tr| - 1].NvmSeen? && ledger.PostReads? && After(job, ledger, tr[|tr| - 1]).PostReads?
    requires PostPart(job, tr[..|tr| - 1], m, ledger)
    ensures PostPart(job, tr, m, After(job, ledger, tr[|tr| - 1]))
  {
    var shorter := tr[..|tr| - 1];
    assert tr[m.adopted] == shorter[m.adopted] && tr[|shorter| - 1] == shorter[|shorter| - 1];
  }

  lemma PostContinues(job: Job, tr: seq<Event>, m: Milestones)
    requires Summary(job, tr).PostReads? && tr[|tr| - 1].NvmSeen?
    requires Summary(job, tr[..|tr| - 1]).PostReads?
    requires PostReading(job, tr[..|tr| - 1], m, Summary(job, tr[..|tr| - 1]))
    ensures PostReading(job, tr, m, Summary(job, tr))
  {
    RecoveredStays(job, tr[..|tr| - 1], tr, m);
    PostPartContinues(job, tr, m, Summary(job, tr[..|tr| - 1]));
  }

  lemma {:induction false} PostShape(job: Job, tr: seq<Event>) returns (m: Milestones)
    requires Summary(job, tr).PostReads?
    ensures PostReading(job, tr, m, Summary(job, tr))
  {
    if tr[|tr| - 1].Registered? {
      m := PostOpens(job, tr);
    } else {
      m := PostShape(job, tr[..|tr| - 1]);
      PostContinues(job, tr, m);
    }
  }

  /** The story a verified report tells. The last read before the end (before the serving
      cell for a set) is a post-reset read of the adopted modem that matches the request. */
  ghost predicate Story(op: Op, m: Milestones) {
    var job, tr := op.job, op.trace;
    var lastRead := if job.request.ClearLock? then |tr| - 1 else |tr| - 2;
    && Recovered(job, tr, m)
    && op.replacement == Some(tr[m.adopted].target)
    && m.registered < lastRead
    && Reads(tr, m.registered + 1, lastRead + 1, PostReset, tr[m.adopted].target)
    && MatchAt(job, tr, lastRead)
    && (job.request.SetLock? ==>
          && tr[|tr| - 1].ServingSeen? && tr[|tr| - 1].target == tr[m.adopted].target
          && CellMatches(tr[|tr| - 1].cell, job.request)
          && op.outcome.Some?
          && op.outcome.value.report == Verified(AppliedVerified, Some(tr[|tr| - 1].cell)))
  }

  lemma ServedShape(job: Job, tr: seq<Event>) returns (m: Milestones)
    requires Summary(job, tr).Served?
    ensures job.request.SetLock? && Recovered(job, tr, m) && m.registered < |tr| - 2
    ensures tr[m.adopted].target == Summary(job, tr).ref
    ensures Reads(tr, m.registered + 1, |tr| - 1, PostReset, tr[m.adopted].target)
    ensures MatchAt(job, tr, |tr| - 2)
    ensures tr[|tr| - 1].ServingSeen? && tr[|tr| - 1].target == tr[m.adopted].target
    ensures tr[|tr| - 1].cell == Summary(job, tr).cell && CellMatches(tr[|tr| - 1].cell, job.request)
  {
    var shorter := tr[..|tr| - 1];
    m := PostShape(job, shorter);
    RecoveredStays(job, shorter, tr, m);
    assert forall i | 0 <= i < |shorter| :: tr[i] == shorter[i];
  }

  /** Every report of `applied_verified` or `cleared_verified`, in any run, has behind it the
      parsed probe, the acknowledged write, two consecutive matching reads, one earned reset,
      an attested replacement of another generation on the same slot, observed registration,
      a matching post-reset read and, for a set, the requested serving cell. */
  lemma VerifiedMeansEveryStage(op: Op, now: int) returns (m: Milestones)
    requires Inv(op, now) && op.outcome.Some? && op.outcome.value.report.Verified?
    ensures Story(op, m)
  {
    if op.job.request.ClearLock? {
      m := PostShape(op.job, op.trace);
    } else {
      m := ServedShape(op.job, op.trace);
    }
  }

  // ----- what the reported flags mean ---------------------------------------------------

  ghost predicate Saw(tr: seq<Event>, p: Event -> bool) {
    exists i | 0 <= i < |tr| :: p(tr[i])
  }

  lemma {:induction false} LedgerTellsTrace(job: Job, tr: seq<Event>)
    requires Legal(job, tr)
    ensures var ledger := Summary(job, tr);
            && (!(ledger.Empty? || ledger.Probed?) <==> Saw(tr, (e: Event) => e.WriteSent?))
            && (WasAcknowledged(ledger) <==> Saw(tr, (e: Event) => e.WriteAcknowledged?))
            && (WasReset(ledger) <==> Saw(tr, (e: Event) => e.ResetSent?))
  {
    if tr != [] {
      LedgerTellsTrace(job, tr[..|tr| - 1]);
    }
  }

  /** The operation's flags, among them the acknowledgement that every failure reports, say
      exactly what was dispatched and acknowledged. */
  lemma FlagsTellTrace(op: Op, now: int)
    requires Inv(op, now)
    ensures op.setDispatched <==> Saw(op.trace, (e: Event) => e.WriteSent?)
    ensures op.acknowledged <==> Saw(op.trace, (e: Event) => e.WriteAcknowledged?)
    ensures op.resetDispatched <==> Saw(op.trace, (e: Event) => e.ResetSent?)
  {
    LedgerTellsTrace(op.job, op.trace);
  }

  // ----- whole runs ---------------------------------------------------------------------

  /** A callback of the operation, the 130-second timer, or the loss of the bus. Between two
      of these the environment may change the modem objects in any way. */
  datatype Tick =
    | Callback(ctx: Ctx, original: Modem, replacement: Option<Modem>, input: Input)
    | Expired
    | Disconnected

  ghost predicate Allowed(op: Op, now: int, tick: Tick) {
    tick.Callback? ==> now <= tick.ctx.now && Enabled(View(op, tick.original, tick.replacement), tick.ctx, tick.input)
  }

  ghost function Apply(op: Op, now: int, tick: Tick): Op
    requires Allowed(op, now, tick)
  {
    match tick
    case Callback(ctx, original, replacement, input) => Step(View(op, original, replacement), ctx, input).op
    case Expired => op.(timedOut := true)
    case Disconnected => op.(transportLost := true, deferred := false)
  }

  function TimeAfter(now: int, tick: Tick): int {
    if tick.Callback? then tick.ctx.now else now
  }

  /** `ticks` is a run of the operation that leads from `op` at `now` to `end`. */
  ghost predicate IsRun(op: Op, now: int, ticks: seq<Tick>, end: Op)
    decreases |ticks|
  {
    if ticks == [] then op == end
    else Allowed(op, now, ticks[0]) && IsRun(Apply(op, now, ticks[0]), TimeAfter(now, ticks[0]), ticks[1..], end)
  }

  function Callbacks(ticks: seq<Tick>): nat {
    if ticks == [] then 0 else (if ticks[0].Callback? then 1 else 0) + Callbacks(ticks[1..])
  }

  lemma TimePasses(op: Op, now: int, later: int)
    requires Inv(op, now) && now <= later
    ensures Inv(op, later)
  {
  }

  lemma FlagsKeepInv(op: Op, now: int)
    requires Inv(op, now)
    ensures Inv(op.(timedOut := true), now) && Fuel(op.(timedOut := true)) == Fuel(op)
    ensures Inv(op.(transportLost := true, deferred := false), now)
    ensures Fuel(op.(transportLost := true, deferred := false)) == Fuel(op)
  {
  }

  lemma TickKeepsInv(op: Op, now: int, tick: Tick)
    requires Inv(op, now) && Allowed(op, now, tick)
    ensures Inv(Apply(op, now, tick), TimeAfter(now, tick))
    ensures Fuel(Apply(op, now, tick)) <= Fuel(op) - (if tick.Callback? then 1 else 0)
  {
    if tick.Callback? {
      TimePasses(op, now, tick.ctx.now);
      StepKeepsInv(View(op, tick.original, tick.replacement), tick.ctx, tick.input);
    } else {
      FlagsKeepInv(op, now);
    }
  }

  /** Every run of an operation, however timers, timeouts, disconnections and modem changes
      interleave, keeps the invariant and has at most 194 callbacks. */
  lemma {:induction false} RunIsBounded(op: Op, now: int, ticks: seq<Tick>, end: Op)
    requires Inv(op, now) && IsRun(op, now, ticks, end)
    ensures Callbacks(ticks) + Fuel(end) <= Fuel(op) <= CALLBACK_BUDGET
    ensures 0 <= Fuel(end)
    ensures exists later :: now <= later && Inv(end, later)
    decreases |ticks|
  {
    ActiveHasFuel(op, Summary(op.job, op.trace), now);
    if ticks == [] {
      assert Inv(end, now);
    } else {
      TickKeepsInv(op, now, ticks[0]);
      RunIsBounded(Apply(op, now, ticks[0]), TimeAfter(now, ticks[0]), ticks[1..], end);
      var later :| TimeAfter(now, ticks[0]) <= later && Inv(end, later);
      assert now <= later && Inv(end, later);
    }
  }

  /** A started operation, wherever a run has taken it. */
  lemma RunFromStart(id: OpId, request: Request, ref: ModemRef, modem: Modem, physdev: string, ctx: Ctx, ticks: seq<Tick>, end: Op)
    returns (later: int)
    requires IsRun(Begin(id, request, ref, modem, physdev, ctx).op, ctx.now, ticks, end)
    ensures Inv(end, later) && Callbacks(ticks) <= CALLBACK_BUDGET
  {
    BeginKeepsInv(id, request, ref, modem, physdev, ctx);
    var op := Begin(id, request, ref, modem, physdev, ctx).op;
    RunIsBounded(op, ctx.now, ticks, end);
    later :| ctx.now <= later && Inv(end, later);
  }

  /** Safety of every run from the start of an operation: one write and one reset at most, a
      reset only when it is earned, a verified report only with every stage behind it, and at
      most 194 callbacks. */
  lemma EveryRunIsSafe(id: OpId, request: Request, ref: ModemRef, modem: Modem, physdev: string, ctx: Ctx, ticks: seq<Tick>, end: Op)
    requires IsRun(Begin(id, request, ref, modem, physdev, ctx).op, ctx.now, ticks, end)
    ensures Callbacks(ticks) <= CALLBACK_BUDGET
    ensures forall i, j | 0 <= i < j < |end.trace| ::
              !(end.trace[i].WriteSent? && end.trace[j].WriteSent?) && !(end.trace[i].ResetSent? && end.trace[j].ResetSent?)
    ensures forall r | 0 <= r < |end.trace| && end.trace[r].ResetSent? :: ResetEarned(end.job, end.trace, r)
    ensures end.outcome.Some? && end.outcome.value.report.Verified? ==> exists m :: Story(end, m)
  {
    var later := RunFromStart(id, request, ref, modem, physdev, ctx, ticks, end);
    forall i, j | 0 <= i < j < |end.trace|
      ensures !(end.trace[i].WriteSent? && end.trace[j].WriteSent?) && !(end.trace[i].ResetSent? && end.trace[j].ResetSent?)
    {
      AtMostOneWriteAndReset(end.job, end.trace, i, j);
    }
    forall r | 0 <= r < |end.trace| && end.trace[r].ResetSent? ensures ResetEarned(end.job, end.trace, r) {
      ResetIsEarned(end.job, end.trace, r);
    }
    if end.outcome.Some? && end.outcome.value.report.Verified? {
      var m := VerifiedMeansEveryStage(end, later);
      assert Story(end, m);
    }
  }

  function PhaseRank(phase: Phase): nat {
    match phase
    case ProtocolProbe => 0
    case SetCommand => 1
    case PreResetNvm => 2
    case ResetCommand => 3
    case Reprobe => 4
    case Registration => 5
    case PostResetNvm => 6
    case CellVerify => 7
  }

  /** No callback takes a live operation back to an earlier phase. */
  lemma PhaseNeverDecreases(v: View, ctx: Ctx, input: Input)
    requires Inv(v.op, ctx.now) && Enabled(v, ctx, input) && Step(v, ctx, input).op.outcome.None?
    ensures PhaseRank(v.op.phase) <= PhaseRank(Step(v, ctx, input).op.phase)
  {
    var later := Step(v, ctx, input).op;
    StepKeepsInv(v, ctx, input);
  }

  /** A reply is owed only while the bus is there, and an ended operation owes none. */
  ghost predicate ReplyOk(op: Op) {
    && (op.transportLost ==> !op.deferred)
    && (op.outcome.Some? ==> !op.deferred && (op.outcome.value.replied ==> !op.transportLost))
  }

  /** `op` is what a callback made of an operation that owed a reply or not. */
  ghost predicate RepliedRight(before: Op, ctx: Ctx, op: Op) {
    ReplyOk(op) && (op.outcome.Some? ==> (op.outcome.value.replied <==> before.deferred && ctx.online))
  }

  /** The reply is sent by the callback that ends the operation, exactly if it is still owed
      and the bus is up; with OneContinuation, at most once. */
  lemma StepKeepsReply(v: View, ctx: Ctx, input: Input)
    requires Enabled(v, ctx, input) && ReplyOk(v.op)
    ensures RepliedRight(v.op, ctx, Step(v, ctx, input).op)
  {
    match input
    case ProbeReply(error, probe) => ProbeKeepsReply(v, ctx, error, probe);
    case SetReply(error, ack) => SetKeepsReply(v, ctx, error, ack);
    case NvmReply(error, nvm) => NvmKeepsReply(v, ctx, error, nvm);
    case ResetReply(error) => ResetKeepsReply(v, ctx, error);
    case CellReply(error, scan) => CellKeepsReply(v, ctx, error, scan);
    case PollFires(found) => PollKeepsReply(v, ctx, found);
  }

  lemma ProbeKeepsReply(v: View, ctx: Ctx, error: ErrorClass, response: Response<LockState>)
    requires v.op.pending.Some? && v.op.outcome.None? && ReplyOk(v.op)
    ensures RepliedRight(v.op, ctx, ProbeReady(v, ctx, error, response).op)
  {
  }

  lemma SetKeepsReply(v: View, ctx: Ctx, error: ErrorClass, response: Response<()>)
    requires v.op.pending.Some? && v.op.outcome.None? && ReplyOk(v.op)
    ensures RepliedRight(v.op, ctx, SetReady(v, ctx, error, response).op)
  {
  }

  lemma ResetKeepsReply(v: View, ctx: Ctx, error: ErrorClass)
    requires v.op.pending.Some? && v.op.outcome.None? && ReplyOk(v.op)
    ensures RepliedRight(v.op, ctx, ResetReady(v, ctx, error).op)
  {
  }

  lemma CellKeepsReply(v: View, ctx: Ctx, error: ErrorClass, response: Response<seq<Cell>>)
    requires v.op.pending.Some? && v.op.outcome.None? && ReplyOk(v.op)
    ensures RepliedRight(v.op, ctx, CellReady(v, ctx, error, response).op)
  {
  }

  lemma NvmKeepsReply(v: View, ctx: Ctx, error: ErrorClass, response: Response<LockState>)
    requires v.op.pending.Some? && v.op.outcome.None? && ReplyOk(v.op)
    ensures RepliedRight(v.op, ctx, NvmReady(v, ctx, error, response).op)
  {
    if response.Parsed? {
      var source, w := v.op.pending.value, Answered(v);
      ActKeepsReply(Observed(w, ctx, source.target, source.sentAt, response.value), ctx,
                    Decide(StageOf(w.op.phase), w.op.streak, ObservationOf(w.op.job, response.value)));
    }
  }

  lemma ActKeepsReply(seen: View, ctx: Ctx, decision: Decision)
    requires seen.op.outcome.None? && ReplyOk(seen.op)
    ensures RepliedRight(seen.op, ctx, ActOn(seen, ctx, decision).op)
  {
    var preReset := seen.op.phase == PreResetNvm;
    if ctx.now >= seen.op.deadline {
      CompleteReplies(seen, ctx, Failure(if preReset then LockAppliedResetRequired else VerificationMismatch, VerificationMismatch));
    } else if decision != Retry {
      if preReset {
        ResetStartReplies(seen, ctx);
      } else {
        CompleteReplies(seen, ctx, Verified(ClearedVerified, None));
      }
    }
  }

  lemma CompleteReplies(v: View, ctx: Ctx, report: Report)
    requires v.op.outcome.None? && ReplyOk(v.op)
    ensures RepliedRight(v.op, ctx, Complete(v, ctx, report).op)
  {
  }

  lemma ResetStartReplies(v: View, ctx: Ctx)
    requires v.op.outcome.None? && ReplyOk(v.op)
    ensures RepliedRight(v.op, ctx, StartReset(v, ctx).op)
  {
  }

  lemma ReprobeKeepsReply(v: View, ctx: Ctx, found: Found)
    requires v.op.outcome.None? && ReplyOk(v.op)
    ensures RepliedRight(v.op, ctx, PollReprobe(v, ctx, found).op)
  {
    match found
    case Ambiguous => CompleteReplies(v, ctx, Failure(VerificationMismatch, VerificationMismatch));
    case One(_, modem) => if modem.busy { CompleteReplies(v, ctx, Failure(OutcomeUnknown, Busy)); }
    case Nobody => if ctx.now >= v.op.deadline { CompleteReplies(v, ctx, Failure(ReprobeTimeout, ReprobeTimeout)); }
  }

  lemma RegistrationKeepsReply(v: View, ctx: Ctx)
    requires v.op.outcome.None? && ReplyOk(v.op)
    ensures RepliedRight(v.op, ctx, PollRegistration(v, ctx).op)
  {
  }

  lemma ReadKeepsReply(v: View, ctx: Ctx)
    requires v.op.outcome.None? && ReplyOk(v.op)
    ensures RepliedRight(v.op, ctx, PollNvm(v, ctx).op)
  {
  }

  lemma PollKeepsReply(v: View, ctx: Ctx, found: Found)
    requires v.op.outcome.None? && ReplyOk(v.op) && Enabled(v, ctx, PollFires(found))
    ensures RepliedRight(v.op, ctx, Poll(v, ctx, found).op)
  {
    if !v.op.timedOut && !v.op.transportLost {
      match v.op.phase
      case PreResetNvm => ReadKeepsReply(v, ctx);
      case PostResetNvm => ReadKeepsReply(v, ctx);
      case Reprobe => ReprobeKeepsReply(v, ctx, found);
      case Registration => RegistrationKeepsReply(v, ctx);
      case _ =>
    }
  }

  /** Between callbacks a live operation has exactly one continuation: one pending command
      whose reply is accepted whenever it comes, or one timer, accepted once it is due. A
      finished operation has none, so it can neither finish nor reply again. */
  lemma OneContinuation(op: Op, now: int)
    requires Inv(op, now)
    ensures op.outcome.None? ==> (op.pending.Some? <==> op.poll.None?)
    ensures op.outcome.Some? ==>
              forall v: View, ctx: Ctx, input: Input :: v.op == op ==> !Enabled(v, ctx, input)
  {
  }

  /** The lock write has no such guard: a probe that is answered in spite of a recorded
      timeout or lost transport still dispatches the write. */
  lemma WriteMayFollowTransportLoss(modem: Modem, request: Request, state: LockState)
    requires Attested(modem)
    ensures var ctx := Ctx(0, false);
            var begun := Begin(0, request, 0, modem, modem.physdev.value, ctx);
            var lost := TimeOut(LoseTransport(begun));
            && Enabled(lost, ctx, ProbeReply(NoError, Parsed(state)))
            && var v := Step(lost, ctx, ProbeReply(NoError, Parsed(state)));
               v.op.transportLost && v.op.timedOut && v.op.outcome.None?
               && v.op.trace == [ProbeParsed(0, 0), WriteSent(0, 0)]
  {
  }

  /** Exactly when a probe reply dispatches the write: the reply is clean and parsed and the
      original is still valid; timeout and transport flags play no part. */
  lemma WriteDispatchedIff(v: View, ctx: Ctx, error: ErrorClass, response: Response<LockState>)
    requires Inv(v.op, ctx.now) && Enabled(v, ctx, ProbeReply(error, response))
    ensures var w := ProbeReady(v, ctx, error, response);
            (exists i | 0 <= i < |w.op.trace| :: w.op.trace[i].WriteSent?) <==>
            OriginalValid(v, v.op.job.original) && error == NoError && response.Parsed?
  {
    var w := ProbeReady(v, ctx, error, response);
    var ledger := Summary(v.op.job, v.op.trace);
    ReplyFixesLedger(v, ctx, ProbeReply(error, response), ledger);
    EmptyTrace(v.op.job, v.op.trace);
    if ProbeGood(v, error, response) {
      ProbeDispatches(v, ctx, error, response, ledger);
      assert w.op.trace[1].WriteSent?;
    } else {
      ProbeFails(v, ctx, error, response, ledger);
      assert w.op.trace == [];
    }
  }

  lemma EmptyTrace(job: Job, tr: seq<Event>)
    requires Summary(job, tr).Empty?
    ensures tr == []
  {
  }

  // ----- what a step does to the two modem locks -----------------------------------------

  ghost predicate Quiet(v: View, w: View) {
    w.op.outcome.None? && w.original == v.original && w.replacement == v.replacement && w.op.replacement == v.op.replacement
  }

  ghost predicate Adopts(v: View, w: View, input: Input) {
    && w.op.outcome.None? && w.original == v.original
    && v.op.phase == Reprobe && input.PollFires? && input.found.One? && !input.found.modem.busy
    && w.op.replacement == Some(input.found.ref)
    && w.replacement == Some(Acquire(input.found.modem, v.op.job.id))
  }

  ghost predicate Releases(v: View, w: View, now: int) {
    && w.op.outcome.Some? && w.op.replacement == v.op.replacement
    && w.original == Release(v.original, v.op.setDispatched, now)
    && w.replacement == (if v.replacement.Some? then Some(Release(v.replacement.value, v.op.setDispatched, now)) else None)
  }

  /** A step leaves the locks alone, takes the free lock of the modem it adopts, or ends the
      operation and releases what it holds. */
  ghost predicate LockEffect(v: View, w: View, input: Input, now: int) {
    w.op.job == v.op.job && (Quiet(v, w) || Adopts(v, w, input) || Releases(v, w, now))
  }

  lemma NvmObservedLocks(v: View, ctx: Ctx, source: ModemRef, sentAt: int, state: LockState, input: Input)
    requires v.op.outcome.None?
    ensures LockEffect(v, NvmObserved(v, ctx, source, sentAt, state), input, ctx.now)
  {
  }

  lemma NvmLocks(v: View, ctx: Ctx, error: ErrorClass, response: Response<LockState>)
    requires Enabled(v, ctx, NvmReply(error, response))
    ensures LockEffect(v, NvmReady(v, ctx, error, response), NvmReply(error, response), ctx.now)
  {
    if response.Parsed? {
      NvmObservedLocks(Answered(v), ctx, v.op.pending.value.target, v.op.pending.value.sentAt, response.value,
                       NvmReply(error, response));
    }
  }

  lemma ProbeLocks(v: View, ctx: Ctx, error: ErrorClass, response: Response<LockState>)
    requires Enabled(v, ctx, ProbeReply(error, response))
    ensures LockEffect(v, ProbeReady(v, ctx, error, response), ProbeReply(error, response), ctx.now)
  {
  }

  lemma SetLocks(v: View, ctx: Ctx, error: ErrorClass, response: Response<()>)
    requires Enabled(v, ctx, SetReply(error, response))
    ensures LockEffect(v, SetReady(v, ctx, error, response), SetReply(error, response), ctx.now)
  {
  }

  lemma CellLocks(v: View, ctx: Ctx, error: ErrorClass, response: Response<seq<Cell>>)
    requires Enabled(v, ctx, CellReply(error, response))
    ensures LockEffect(v, CellReady(v, ctx, error, response), CellReply(error, response), ctx.now)
  {
  }

  lemma PollLocks(v: View, ctx: Ctx, found: Found)
    requires Enabled(v, ctx, PollFires(found))
    ensures LockEffect(v, Poll(v, ctx, found), PollFires(found), ctx.now)
  {
    if Poll(v, ctx, found).op.outcome.Some? {
      var state, code := PollFailure(v, ctx, found);
    } else if v.op.phase == Reprobe {
      PollReprobeLocks(v, ctx, found);
    } else if v.op.phase == Registration {
      PollRegistrationLocks(v, ctx);
    }
  }

  lemma AdoptedLocks(v: View, ctx: Ctx, found: Found)
    requires v.op.outcome.None? && v.op.phase == Reprobe && found.One? && !found.modem.busy
    ensures PollReprobe(v, ctx, found).op.job == v.op.job && Adopts(v, PollReprobe(v, ctx, found), PollFires(found))
  {
    var w := Adopt(v, ctx, found.ref, found.modem);
    assert Adopts(v, w, PollFires(found)) && w.op.job == v.op.job;
  }

  lemma PollReprobeLocks(v: View, ctx: Ctx, found: Found)
    requires v.op.outcome.None? && v.op.phase == Reprobe && PollReprobe(v, ctx, found).op.outcome.None?
    ensures PollReprobe(v, ctx, found).op.job == v.op.job
    ensures Quiet(v, PollReprobe(v, ctx, found)) || Adopts(v, PollReprobe(v, ctx, found), PollFires(found))
  {
    if found.One? && !found.modem.busy { AdoptedLocks(v, ctx, found); }
  }

  lemma PollRegistrationLocks(v: View, ctx: Ctx)
    requires v.op.outcome.None? && PollRegistration(v, ctx).op.outcome.None?
    ensures PollRegistration(v, ctx).op.job == v.op.job && Quiet(v, PollRegistration(v, ctx))
  {
  }

  lemma StepLocks(v: View, ctx: Ctx, input: Input)
    requires Enabled(v, ctx, input)
    ensures LockEffect(v, Step(v, ctx, input), input, ctx.now)
  {
    match input
    case ProbeReply(error, probe) => ProbeLocks(v, ctx, error, probe);
    case SetReply(error, ack) => SetLocks(v, ctx, error, ack);
    case NvmReply(error, nvm) => NvmLocks(v, ctx, error, nvm);
    case ResetReply(error) =>
    case CellReply(error, scan) => CellLocks(v, ctx, error, scan);
    case PollFires(found) => PollLocks(v, ctx, found);
  }
}
