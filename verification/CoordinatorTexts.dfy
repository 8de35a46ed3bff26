/** The coordinator fed by the parsers (ubus_glib.c, l850_cell.c): what a verified
    report says about the very texts that the modem answered. */
module CoordinatorTexts {
  import opened Common
  import opened CText
  import opened LockTypes
  import opened MutationPolicy
  import opened Coordinator
  import opened CoordinatorRuns
  import opened CoordinatorTheorems
  import LockGrammar
  import LockReports
  import CellGrammar
  import CellReports

  /** What the coordinator is told about the answer to an NVM read. */
  function NvmResponse(text: string): Response<LockState> {
    var reading := LockGrammar.ParseNvm(text);
    if reading.Read? then Parsed(reading.value) else Unparsable
  }

  /** What it is told about the answer to a scan. */
  function ScanResponse(text: string): Response<seq<Cell>> {
    var reading := CellGrammar.ParseText(text);
    if reading.Read? then Parsed(reading.value) else Unparsable
  }

  /** The callback was given this text, or none at all. */
  predicate Hears(input: Input, text: string) {
    match input
    case ProbeReply(_, probe) => probe.Missing? || probe == NvmResponse(text)
    case NvmReply(_, nvm) => nvm.Missing? || nvm == NvmResponse(text)
    case CellReply(_, scan) => scan.Missing? || scan == ScanResponse(text)
    case _ => true
  }

  // ----- where the events of a trace come from ----------------------------------------------------------

  predicate IsReading(e: Event) {
    e.NvmSeen? || e.ServingSeen?
  }

  predicate Source(input: Input, e: Event) {
    match e
    case NvmSeen(_, _, _, _, state) => input.NvmReply? && input.nvm == Parsed(state)
    case ServingSeen(_, cell, _) => input.CellReply? && input.scan.Parsed? && ServingCell(input.scan.value) == Some(cell)
    case _ => true
  }

  /** A step only adds to the trace, and a reading can only be the first thing it adds. */
  ghost predicate Adds(op: Op, next: Op, input: Input) {
    && next.job == op.job && op.trace <= next.trace
    && (forall j | |op.trace| < j < |next.trace| :: !IsReading(next.trace[j]))
    && (|op.trace| < |next.trace| ==> Source(input, next.trace[|op.trace|]))
  }

  /** At most one more event, and that one no reading. */
  ghost predicate Trails(op: Op, next: Op) {
    && next.job == op.job
    && (next.trace == op.trace || (|next.trace| == |op.trace| + 1 && op.trace <= next.trace && !IsReading(next.trace[|op.trace|])))
  }

  lemma SendsTrail(v: View, ctx: Ctx)
    ensures Trails(v.op, StartReset(v, ctx).op) && Trails(v.op, DispatchSet(v, ctx).op)
  {
  }

  lemma CompleteTrails(v: View, ctx: Ctx, report: Report)
    ensures Trails(v.op, Complete(v, ctx, report).op)
  {
  }

  lemma ActTrails(seen: View, ctx: Ctx, decision: Decision)
    ensures Trails(seen.op, ActOn(seen, ctx, decision).op)
  {
    var preReset := seen.op.phase == PreResetNvm;
    if ctx.now >= seen.op.deadline {
      CompleteTrails(seen, ctx, Failure(if preReset then LockAppliedResetRequired else VerificationMismatch, VerificationMismatch));
    } else if decision == Retry {
    } else if preReset {
      SendsTrail(seen, ctx);
    } else {
      CompleteTrails(seen, ctx, Verified(ClearedVerified, None));
    }
  }

  lemma ObservedAdds(v: View, ctx: Ctx, source: ModemRef, sentAt: int, state: LockState, error: ErrorClass)
    ensures Adds(v.op, NvmObserved(v, ctx, source, sentAt, state).op, NvmReply(error, Parsed(state)))
  {
    ActTrails(Observed(v, ctx, source, sentAt, state), ctx, Decide(StageOf(v.op.phase), v.op.streak, ObservationOf(v.op.job, state)));
  }

  lemma NvmAdds(v: View, ctx: Ctx, error: ErrorClass, response: Response<LockState>)
    requires v.op.pending.Some?
    ensures Adds(v.op, NvmReady(v, ctx, error, response).op, NvmReply(error, response))
  {
    if response.Parsed? { ObservedAdds(Answered(v), ctx, v.op.pending.value.target, v.op.pending.value.sentAt, response.value, error); }
  }

  lemma QuietAdds(v: View, ctx: Ctx, report: Report, input: Input)
    ensures Adds(v.op, Complete(v, ctx, report).op, input)
  {
  }

  lemma ReadAdds(v: View, ctx: Ctx, found: Found)
    ensures Adds(v.op, PollNvm(v, ctx).op, PollFires(found))
  {
  }

  lemma ReprobeAdds(v: View, ctx: Ctx, found: Found)
    ensures Adds(v.op, PollReprobe(v, ctx, found).op, PollFires(found))
  {
  }

  lemma RegistrationAdds(v: View, ctx: Ctx, found: Found)
    ensures Adds(v.op, PollRegistration(v, ctx).op, PollFires(found))
  {
  }

  lemma PollAdds(v: View, ctx: Ctx, found: Found)
    ensures Adds(v.op, Poll(v, ctx, found).op, PollFires(found))
  {
    if v.op.timedOut || v.op.transportLost {
      var state := if v.op.phase == PreResetNvm then LockAppliedResetRequired else OutcomeUnknown;
      QuietAdds(v, ctx, Failure(state, OutcomeUnknown), PollFires(found));
    } else {
      match v.op.phase
      case PreResetNvm => ReadAdds(v, ctx, found);
      case PostResetNvm => ReadAdds(v, ctx, found);
      case Reprobe => ReprobeAdds(v, ctx, found);
      case Registration => RegistrationAdds(v, ctx, found);
      case _ => QuietAdds(v, ctx, Failure(OutcomeUnknown, OutcomeUnknown), PollFires(found));
    }
  }

  lemma LogTrails(op: Op, e: Event, next: Op, input: Input)
    requires !IsReading(e) && Trails(op.(trace := op.trace + [e]), next)
    ensures Adds(op, next, input)
  {
    var mid := op.trace + [e];
    assert forall j | 0 <= j < |mid| :: next.trace[j] == mid[j];
  }

  lemma DispatchAdds(v: View, e: Event, ctx: Ctx, input: Input)
    requires !IsReading(e)
    ensures Adds(v.op, DispatchSet(Log(v, e), ctx).op, input)
  {
    SendsTrail(Log(v, e), ctx);
    LogTrails(v.op, e, DispatchSet(Log(v, e), ctx).op, input);
  }

  lemma ProbeAdds(v: View, ctx: Ctx, error: ErrorClass, response: Response<LockState>)
    requires v.op.pending.Some?
    ensures Adds(v.op, ProbeReady(v, ctx, error, response).op, ProbeReply(error, response))
  {
    var w, e := Answered(v), ProbeParsed(v.op.pending.value.target, ctx.now);
    if w.op.phase != ProtocolProbe || !OriginalValid(w, v.op.pending.value.target) {
      QuietAdds(w, ctx, Failure(DeviceGone, DeviceGone), ProbeReply(error, response));
    } else if error != NoError || response.Missing? {
      QuietAdds(w, ctx, Failure(Normalized, Normalized), ProbeReply(error, response));
    } else if response.Unparsable? {
      QuietAdds(w, ctx, Failure(UnsupportedProtocol, UnsupportedProtocol), ProbeReply(error, response));
    } else {
      DispatchAdds(w, e, ctx, ProbeReply(error, response));
    }
  }

  lemma SetAdds(v: View, ctx: Ctx, error: ErrorClass, response: Response<()>)
    requires v.op.pending.Some?
    ensures Adds(v.op, SetReady(v, ctx, error, response).op, SetReply(error, response))
  {
  }

  lemma ResetAdds(v: View, ctx: Ctx, error: ErrorClass)
    requires v.op.pending.Some?
    ensures Adds(v.op, ResetReady(v, ctx, error).op, ResetReply(error))
  {
  }

  lemma CellAdds(v: View, ctx: Ctx, error: ErrorClass, response: Response<seq<Cell>>)
    requires v.op.pending.Some?
    ensures Adds(v.op, CellReady(v, ctx, error, response).op, CellReply(error, response))
  {
  }

  lemma StepAdds(v: View, ctx: Ctx, input: Input)
    requires Enabled(v, ctx, input)
    ensures Adds(v.op, Step(v, ctx, input).op, input)
  {
    match input
    case ProbeReply(error, probe) => ProbeAdds(v, ctx, error, probe);
    case SetReply(error, ack) => SetAdds(v, ctx, error, ack);
    case NvmReply(error, nvm) => NvmAdds(v, ctx, error, nvm);
    case ResetReply(error) => ResetAdds(v, ctx, error);
    case CellReply(error, scan) => CellAdds(v, ctx, error, scan);
    case PollFires(found) => PollAdds(v, ctx, found);
  }

  /** For each event of a run's trace the tick that added it: readings come from an answer that
      says so, and from a later tick than everything before them. */
  ghost predicate Origins(before: nat, trace: seq<Event>, ticks: seq<Tick>, from: seq<nat>) {
    && before + |from| == |trace|
    && (forall j | 0 <= j < |from| :: from[j] < |ticks|)
    && (forall j | 0 <= j < |from| && IsReading(trace[before + j]) ::
          ticks[from[j]].Callback? && Source(ticks[from[j]].input, trace[before + j]))
    && (forall i, j | 0 <= i < j < |from| :: from[i] <= from[j] && (IsReading(trace[before + j]) ==> from[i] < from[j]))
  }

  lemma TickAdds(op: Op, now: int, tick: Tick)
    requires Allowed(op, now, tick)
    ensures var next := Apply(op, now, tick);
            && next.job == op.job && op.trace <= next.trace
            && (forall j | |op.trace| < j < |next.trace| :: !IsReading(next.trace[j]))
            && (|op.trace| < |next.trace| ==> tick.Callback? && Source(tick.input, next.trace[|op.trace|]))
  {
    if tick.Callback? { StepAdds(View(op, tick.original, tick.replacement), tick.ctx, tick.input); }
  }

  /** The events from `before` up to `mid` are those of the first tick. */
  lemma OriginsGrow(before: nat, mid: nat, trace: seq<Event>, ticks: seq<Tick>, rest: seq<nat>) returns (from: seq<nat>)
    requires ticks != [] && before <= mid <= |trace| && Origins(mid, trace, ticks[1..], rest)
    requires forall j | before < j < mid :: !IsReading(trace[j])
    requires before < mid ==> ticks[0].Callback? && Source(ticks[0].input, trace[before])
    ensures Origins(before, trace, ticks, from)
  {
    var n := mid - before;
    from := seq(n + |rest|, j requires 0 <= j < n + |rest| => if j < n then 0 else rest[j - n] + 1);
    forall j | 0 <= j < |from| && IsReading(trace[before + j])
      ensures ticks[from[j]].Callback? && Source(ticks[from[j]].input, trace[before + j])
    {
      if j >= n {
        assert ticks[1..][rest[j - n]] == ticks[from[j]] && trace[mid + (j - n)] == trace[before + j];
      }
    }
    forall i, j | 0 <= i < j < |from|
      ensures from[i] <= from[j] && (IsReading(trace[before + j]) ==> from[i] < from[j])
    {
      if i >= n {
        assert trace[mid + (j - n)] == trace[before + j] && rest[i - n] <= rest[j - n];
      }
    }
  }

  lemma {:induction false} RunOrigins(op: Op, now: int, ticks: seq<Tick>, end: Op) returns (from: seq<nat>)
    requires IsRun(op, now, ticks, end)
    ensures end.job == op.job && op.trace <= end.trace && Origins(|op.trace|, end.trace, ticks, from)
    decreases |ticks|
  {
    if ticks == [] {
      from := [];
    } else {
      TickAdds(op, now, ticks[0]);
      var rest := RunOrigins(Apply(op, now, ticks[0]), TimeAfter(now, ticks[0]), ticks[1..], end);
      var mid := |Apply(op, now, ticks[0]).trace|;
      assert forall j | 0 <= j < mid :: end.trace[j] == Apply(op, now, ticks[0]).trace[j];
      from := OriginsGrow(|op.trace|, mid, end.trace, ticks, rest);
    }
  }

  // ----- the texts behind a verified report --------------------------------------------------------------

  /** The text is a report whose five numbers are those of the request. */
  ghost predicate Confirms(text: string, request: Request) {
    && LockReports.Bounded(text)
    && exists t :: LockReports.Renders(Split(text, '\n'), t) && LockGrammar.Describes(t, request)
  }

  lemma MatchConfirms(text: string, state: LockState, request: Request)
    requires NvmResponse(text) == Parsed(state) && StateMatches(state, request) && LockGrammar.ValidRequest(request)
    ensures Confirms(text, request)
  {
    LockReports.AcceptedIff(text, state);
    var t :| LockReports.Renders(Split(text, '\n'), t) && LockGrammar.StateOf(t) == LockGrammar.Read(state);
    LockGrammar.ReadMatchesIff(t, request);
  }

  /** The numbers are of a line of type 4 on the requested channel and, if one was requested,
      of the requested identity. */
  predicate Asked(n: CellReports.Numbers, request: Request) {
    n.kind == 4 && (request.SetLock? ==> n.earfcn == request.earfcn && (request.pci.Some? ==> n.pci == request.pci.value))
  }

  /** The text is a scan with one line of type 4, and that line is the requested cell. */
  ghost predicate Serves(text: string, request: Request) {
    exists ns, i :: CellReports.ScanRenders(text, ns) && OnlyServing(ns, i) && Asked(ns[i], request)
  }

  ghost predicate OnlyServing(ns: seq<CellReports.Numbers>, i: int) {
    0 <= i < |ns| && forall j | 0 <= j < |ns| && ns[j].kind == 4 :: j == i
  }

  lemma {:induction false} ServingIsLast(cells: seq<Cell>) returns (i: nat)
    requires ServingCell(cells).Some?
    ensures i < |cells| && cells[i].serving && ServingCell(cells) == Some(cells[i])
  {
    var last := |cells| - 1;
    if cells[last].serving { i := last; } else { i := ServingIsLast(cells[..last]); }
  }

  lemma ScanServes(text: string, cells: seq<Cell>, cell: Cell, request: Request)
    requires ScanResponse(text) == Parsed(cells) && ServingCell(cells) == Some(cell) && CellMatches(cell, request)
    ensures Serves(text, request)
  {
    var i := ServingIsLast(cells);
    var ns := CellReports.ScanRendered(text, cells);
    forall j | 0 <= j < |ns| && ns[j].kind == 4 ensures j == i {
      assert cells[j].serving;
      assert j < i || i < j || i == j;
    }
    assert CellReports.Reports(ns[i], cells[i]) && OnlyServing(ns, i) && Asked(ns[i], request);
  }

  ghost predicate AllHeard(ticks: seq<Tick>, texts: seq<string>) {
    |texts| == |ticks| && forall k | 0 <= k < |ticks| && ticks[k].Callback? :: Hears(ticks[k].input, texts[k])
  }

  lemma ReadConfirms(tr: seq<Event>, ticks: seq<Tick>, texts: seq<string>, from: seq<nat>, i: nat, job: Job)
    requires Origins(0, tr, ticks, from) && AllHeard(ticks, texts) && LockGrammar.ValidRequest(job.request) && MatchAt(job, tr, i)
    ensures from[i] < |texts| && Confirms(texts[from[i]], job.request)
  {
    assert IsReading(tr[0 + i]);
    MatchConfirms(texts[from[i]], tr[i].state, job.request);
  }

  lemma ServedConfirms(tr: seq<Event>, ticks: seq<Tick>, texts: seq<string>, from: seq<nat>, i: nat, request: Request)
    requires Origins(0, tr, ticks, from) && AllHeard(ticks, texts) && i < |tr| && tr[i].ServingSeen? && CellMatches(tr[i].cell, request)
    ensures from[i] < |texts| && Serves(texts[from[i]], request)
  {
    assert IsReading(tr[0 + i]);
    ScanServes(texts[from[i]], ticks[from[i]].input.scan.value, tr[i].cell, request);
  }

  lemma LaterReading(tr: seq<Event>, ticks: seq<Tick>, from: seq<nat>, i: nat, j: nat)
    requires Origins(0, tr, ticks, from) && i < j < |tr| && IsReading(tr[j])
    ensures from[i] < from[j]
  {
    assert IsReading(tr[0 + j]);
  }

  /** Where the last read of a verified operation stands. */
  function LastRead(op: Op): int {
    if op.job.request.ClearLock? then |op.trace| - 1 else |op.trace| - 2
  }

  /** Two matching reads in front of position r, one at the end and, for a set, the scan. */
  ghost predicate Backed(op: Op, r: nat) {
    && 2 <= r < LastRead(op) && MatchAt(op.job, op.trace, r - 2) && MatchAt(op.job, op.trace, r - 1)
    && MatchAt(op.job, op.trace, LastRead(op))
    && (op.job.request.SetLock? ==>
          op.trace[|op.trace| - 1].ServingSeen? && CellMatches(op.trace[|op.trace| - 1].cell, op.job.request))
  }

  lemma StoryReads(op: Op, m: Milestones)
    requires Story(op, m)
    ensures Backed(op, m.reset)
  {
  }

  lemma MatchesConfirm(op: Op, ticks: seq<Tick>, texts: seq<string>, from: seq<nat>)
    requires Origins(0, op.trace, ticks, from) && AllHeard(ticks, texts) && LockGrammar.ValidRequest(op.job.request)
    ensures forall i | MatchAt(op.job, op.trace, i) :: from[i] < |texts| && Confirms(texts[from[i]], op.job.request)
  {
    forall i | MatchAt(op.job, op.trace, i) ensures from[i] < |texts| && Confirms(texts[from[i]], op.job.request) {
      ReadConfirms(op.trace, ticks, texts, from, i, op.job);
    }
  }

  lemma ReadsInOrder(op: Op, r: nat, ticks: seq<Tick>, from: seq<nat>)
    requires Backed(op, r) && Origins(0, op.trace, ticks, from)
    ensures from[r - 2] < from[r - 1] < from[LastRead(op)]
  {
    LaterReading(op.trace, ticks, from, r - 2, r - 1);
    LaterReading(op.trace, ticks, from, r - 1, LastRead(op));
  }

  lemma LastScan(op: Op, r: nat, ticks: seq<Tick>, texts: seq<string>, from: seq<nat>)
    requires Backed(op, r) && Origins(0, op.trace, ticks, from) && AllHeard(ticks, texts) && op.job.request.SetLock?
    ensures from[LastRead(op)] < from[|op.trace| - 1] < |texts| && Serves(texts[from[|op.trace| - 1]], op.job.request)
  {
    ServedConfirms(op.trace, ticks, texts, from, |op.trace| - 1, op.job.request);
    LaterReading(op.trace, ticks, from, LastRead(op), |op.trace| - 1);
  }

  lemma RunBacked(
      id: OpId, request: Request, ref: ModemRef, modem: Modem, physdev: string, ctx: Ctx, ticks: seq<Tick>, end: Op)
    returns (r: nat)
    requires IsRun(Begin(id, request, ref, modem, physdev, ctx).op, ctx.now, ticks, end)
    requires end.outcome.Some? && end.outcome.value.report.Verified?
    ensures Backed(end, r)
  {
    var later := RunFromStart(id, request, ref, modem, physdev, ctx, ticks, end);
    var m := VerifiedMeansEveryStage(end, later);
    StoryReads(end, m);
    r := m.reset;
  }

  lemma TextsBehind(op: Op, r: nat, ticks: seq<Tick>, texts: seq<string>, from: seq<nat>)
    returns (first: nat, second: nat, third: nat, last: nat)
    requires Backed(op, r) && Origins(0, op.trace, ticks, from) && AllHeard(ticks, texts) && LockGrammar.ValidRequest(op.job.request)
    ensures first < second < third <= last < |texts|
    ensures Confirms(texts[first], op.job.request) && Confirms(texts[second], op.job.request) && Confirms(texts[third], op.job.request)
    ensures op.job.request.SetLock? ==> third < last && Serves(texts[last], op.job.request)
  {
    MatchesConfirm(op, ticks, texts, from);
    ReadsInOrder(op, r, ticks, from);
    first, second, third := from[r - 2], from[r - 1], from[LastRead(op)];
    last := third;
    if op.job.request.SetLock? {
      LastScan(op, r, ticks, texts, from);
      last := from[|op.trace| - 1];
    }
  }

  /** Behind a verified report, in any run, are texts the modem sent in this order: two that
      report the requested lock before the reset, one that does after it and, for a set, a scan
      whose serving cell is the requested one. */
  lemma VerifiedTexts(
      id: OpId, request: Request, ref: ModemRef, modem: Modem, physdev: string, ctx: Ctx, ticks: seq<Tick>, end: Op, texts: seq<string>)
    returns (first: nat, second: nat, third: nat, last: nat)
    requires IsRun(Begin(id, request, ref, modem, physdev, ctx).op, ctx.now, ticks, end) && LockGrammar.ValidRequest(request)
    requires AllHeard(ticks, texts)
    requires end.outcome.Some? && end.outcome.value.report.Verified?
    ensures first < second < third <= last < |texts|
    ensures Confirms(texts[first], request) && Confirms(texts[second], request) && Confirms(texts[third], request)
    ensures request.SetLock? ==> third < last && Serves(texts[last], request)
  {
    var from := RunOrigins(Begin(id, request, ref, modem, physdev, ctx).op, ctx.now, ticks, end);
    var r := RunBacked(id, request, ref, modem, physdev, ctx, ticks, end);
    first, second, third, last := TextsBehind(end, r, ticks, texts, from);
  }
}
