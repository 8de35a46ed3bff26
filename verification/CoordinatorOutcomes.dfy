/** What each callback of the coordinator decides (ubus_glib.c), exactly: when it ends the
    operation, with which state and code, and when it goes on to the next command. */
module CoordinatorOutcomes {
  import opened Common
  import opened EarfcnTable
  import opened LockTypes
  import opened MutationPolicy
  import opened Coordinator
  import opened CoordinatorRuns

  // ----- what a decision may rest on -----------------------------------------------------------

  /** The object the operation started on is still the live, attested modem of its slot. */
  predicate OriginalStands(v: View) {
    && v.original.live && v.original.generation == v.op.job.originalGeneration && v.original.attestable
    && v.op.job.physdev != "" && v.original.physdev == Some(v.op.job.physdev)
  }

  /** The object it adopted is still the live, attested modem of that slot. */
  predicate ReplacementStands(v: View) {
    && v.replacement.Some?
    && var m := v.replacement.value;
       && m.live && m.generation == v.op.replacementGeneration && m.attestable
       && v.op.job.physdev != "" && m.physdev == Some(v.op.job.physdev)
  }

  /** Nothing casts doubt on the answer to a command. */
  predicate Certain(op: Op, error: ErrorClass) {
    !op.timedOut && !op.transportLost && error != UncertainError
  }

  predicate FailedWith(op: Op, state: State, code: State) {
    op.outcome.Some? && op.outcome.value.report == Failure(state, code)
  }

  predicate SucceededWith(op: Op, state: State, serving: Option<Cell>) {
    op.outcome.Some? && op.outcome.value.report == Verified(state, serving)
  }

  /** The operation goes on in this phase with this command to this modem. */
  predicate GoesOn(op: Op, phase: Phase, command: Command, target: ModemRef, now: int) {
    op.outcome.None? && op.phase == phase && op.poll.None? && op.pending == Some(Pending(command, target, now))
  }

  /** The operation waits in this phase for its timer. */
  predicate WaitsIn(op: Op, phase: Phase, interval: int, now: int) {
    op.outcome.None? && op.phase == phase && op.pending.None? && op.poll == Some(Timer(interval, now + interval))
  }

  /** The lock that the request asks for, as an NVM report shows it. */
  predicate ShowsRequest(state: LockState, request: Request) {
    match request
    case ClearLock => !state.enabled && state.earfcn == 65535 && state.pci == 65535
    case SetLock(earfcn, pci) =>
      && state.enabled && state.earfcn == earfcn && state.hasPci == pci.Some?
      && state.pci == (if pci.Some? then pci.value else 65535)
  }

  // ----- the phase behind a callback --------------------------------------------------------------

  /** Command and timer of a live operation fit its phase. */
  predicate Placed(op: Op) {
    && op.outcome.None?
    && (op.pending.Some? ==>
          && op.poll.None?
          && var target := op.pending.value.target;
             match op.pending.value.command
             case Probe => op.phase == ProtocolProbe && target == op.job.original
             case Write => op.phase == SetCommand && target == op.job.original
             case Reset => op.phase == ResetCommand && target == op.job.original
             case Scan => op.phase == CellVerify && op.replacement == Some(target) && op.job.request.SetLock?
             case ReadNvm =>
               || (op.phase == PreResetNvm && target == op.job.original && op.streak < 2)
               || (op.phase == PostResetNvm && op.replacement == Some(target) && op.streak == 0))
    && (op.poll.Some? ==>
          && op.pending.None?
          && (op.phase == PreResetNvm || op.phase == PostResetNvm || op.phase == Reprobe || op.phase == Registration)
          && (op.phase == PostResetNvm || op.phase == Registration ==> op.replacement.Some?))
  }

  lemma InvPlaces(op: Op, now: int)
    requires Inv(op, now) && op.outcome.None?
    ensures Placed(op)
  {
  }

  lemma OriginalIsValid(v: View)
    ensures OriginalStands(v) <==> OriginalValid(v, v.op.job.original)
  {
  }

  lemma ReplacementIsValid(v: View)
    requires v.op.replacement.Some?
    ensures ReplacementStands(v) <==> ReplacementValid(v, v.op.replacement.value)
  {
  }

  // ----- the command callbacks -----------------------------------------------------------------------

  lemma ProbeDecides(v: View, ctx: Ctx, error: ErrorClass, probe: Response<LockState>)
    requires Placed(v.op) && Enabled(v, ctx, ProbeReply(error, probe))
    ensures var next := Step(v, ctx, ProbeReply(error, probe)).op;
            && (FailedWith(next, DeviceGone, DeviceGone) <==> !OriginalStands(v))
            && (FailedWith(next, Normalized, Normalized) <==> OriginalStands(v) && (error != NoError || probe.Missing?))
            && (FailedWith(next, UnsupportedProtocol, UnsupportedProtocol) <==>
                OriginalStands(v) && error == NoError && probe.Unparsable?)
            && (GoesOn(next, SetCommand, Write, v.op.job.original, ctx.now) <==>
                OriginalStands(v) && error == NoError && probe.Parsed?)
  {
  }

  lemma SetDecides(v: View, ctx: Ctx, error: ErrorClass, ack: Response<()>)
    requires Placed(v.op) && Enabled(v, ctx, SetReply(error, ack))
    ensures var next := Step(v, ctx, SetReply(error, ack)).op;
            var sure := Certain(v.op, error) && v.original.live && v.original.generation == v.op.job.originalGeneration;
            && (FailedWith(next, OutcomeUnknown, OutcomeUnknown) <==> !sure)
            && (FailedWith(next, Normalized, Normalized) <==> sure && (error != NoError || ack.Missing?))
            && (FailedWith(next, MalformedResponse, MalformedResponse) <==> sure && error == NoError && ack.Unparsable?)
            && (GoesOn(next, PreResetNvm, ReadNvm, v.op.job.original, ctx.now) <==> sure && error == NoError && ack.Parsed?)
            && (next.outcome.None? ==> next.deadline == ctx.now + 10_000_000)
  {
  }

  lemma ResetDecides(v: View, ctx: Ctx, error: ErrorClass)
    requires Placed(v.op) && Enabled(v, ctx, ResetReply(error))
    ensures var next := Step(v, ctx, ResetReply(error)).op;
            var sure := !v.op.timedOut && !v.op.transportLost;
            && (FailedWith(next, OutcomeUnknown, OutcomeUnknown) <==> !sure)
            && (FailedWith(next, LockAppliedResetRequired, Normalized) <==> sure && error == DefiniteError)
            && (WaitsIn(next, Reprobe, 500_000, ctx.now) <==> sure && error != DefiniteError)
            && (next.outcome.None? ==> next.deadline == ctx.now + 45_000_000)
  {
  }

  /** What an observation makes of the verifier. */
  lemma Observes(w: View, ctx: Ctx, source: ModemRef, sentAt: int, state: LockState)
    ensures var seen := Observed(w, ctx, source, sentAt, state);
            var stage := StageOf(w.op.phase);
            var shows := ShowsRequest(state, w.op.job.request);
            && seen == w.(op := w.op.(streak := seen.op.streak, trace := seen.op.trace))
            && (w.op.streak < RequiredMatches(stage) ==> seen.op.streak == if shows then w.op.streak + 1 else 0)
            && Decide(stage, w.op.streak, ObservationOf(w.op.job, state)) ==
               (if shows && w.op.streak + 1 >= RequiredMatches(stage) then Ready else Retry)
  {
  }

  lemma FirstActs(seen: View, ctx: Ctx, decision: Decision)
    requires seen.op.outcome.None? && seen.op.poll.None? && seen.op.pending.None? && seen.op.phase == PreResetNvm
    requires OriginalStands(seen) && decision != FailInvalid
    ensures var next := ActOn(seen, ctx, decision).op;
            if ctx.now >= seen.op.deadline then FailedWith(next, LockAppliedResetRequired, VerificationMismatch)
            else if decision == Ready then GoesOn(next, ResetCommand, Reset, seen.op.job.original, ctx.now) && next.streak == seen.op.streak
            else WaitsIn(next, PreResetNvm, 1_000_000, ctx.now) && next.streak == seen.op.streak
  {
    OriginalIsValid(seen);
  }

  lemma LastActs(seen: View, ctx: Ctx, decision: Decision)
    requires seen.op.outcome.None? && seen.op.poll.None? && seen.op.pending.None? && seen.op.phase == PostResetNvm
    requires seen.op.replacement.Some? && decision != FailInvalid
    ensures var next := ActOn(seen, ctx, decision).op;
            if ctx.now >= seen.op.deadline then FailedWith(next, VerificationMismatch, VerificationMismatch)
            else if decision == Retry then WaitsIn(next, PostResetNvm, 1_000_000, ctx.now)
            else if seen.op.job.request.ClearLock? then SucceededWith(next, ClearedVerified, None)
            else GoesOn(next, CellVerify, Scan, seen.op.replacement.value, ctx.now)
  {
  }

  lemma FirstReadActs(w: View, ctx: Ctx, source: ModemRef, sentAt: int, state: LockState)
    requires w.op.outcome.None? && w.op.poll.None? && w.op.phase == PreResetNvm && w.op.streak < 2
    requires w.op.pending.None? && OriginalStands(w)
    ensures var next := NvmObserved(w, ctx, source, sentAt, state).op;
            var shows := ShowsRequest(state, w.op.job.request);
            if ctx.now >= w.op.deadline then FailedWith(next, LockAppliedResetRequired, VerificationMismatch)
            else if shows && w.op.streak == 1 then GoesOn(next, ResetCommand, Reset, w.op.job.original, ctx.now) && next.streak == 2
            else WaitsIn(next, PreResetNvm, 1_000_000, ctx.now) && next.streak == if shows then w.op.streak + 1 else 0
  {
    Observes(w, ctx, source, sentAt, state);
    var stage, observation := StageOf(w.op.phase), ObservationOf(w.op.job, state);
    FirstActs(Observed(w, ctx, source, sentAt, state), ctx, Decide(stage, w.op.streak, observation));
  }

  lemma LastReadActs(w: View, ctx: Ctx, source: ModemRef, sentAt: int, state: LockState)
    requires w.op.outcome.None? && w.op.poll.None? && w.op.phase == PostResetNvm && w.op.streak == 0
    requires w.op.pending.None? && w.op.replacement.Some?
    ensures var next := NvmObserved(w, ctx, source, sentAt, state).op;
            if ctx.now >= w.op.deadline then FailedWith(next, VerificationMismatch, VerificationMismatch)
            else if !ShowsRequest(state, w.op.job.request) then WaitsIn(next, PostResetNvm, 1_000_000, ctx.now)
            else if w.op.job.request.ClearLock? then SucceededWith(next, ClearedVerified, None)
            else GoesOn(next, CellVerify, Scan, w.op.replacement.value, ctx.now)
  {
    Observes(w, ctx, source, sentAt, state);
    var stage, observation := StageOf(w.op.phase), ObservationOf(w.op.job, state);
    LastActs(Observed(w, ctx, source, sentAt, state), ctx, Decide(stage, w.op.streak, observation));
  }

  /** A read before the reset: the second match in a row, in time, sends the reset. */
  lemma FirstReadsDecide(v: View, ctx: Ctx, error: ErrorClass, nvm: Response<LockState>)
    requires Placed(v.op) && Enabled(v, ctx, NvmReply(error, nvm)) && v.op.phase == PreResetNvm
    ensures var next := Step(v, ctx, NvmReply(error, nvm)).op;
            var sure := Certain(v.op, error) && OriginalStands(v) && error == NoError && !nvm.Missing?;
            var timely := sure && nvm.Parsed? && ctx.now < v.op.deadline;
            && (FailedWith(next, LockAppliedResetRequired, OutcomeUnknown) <==> !sure)
            && (FailedWith(next, LockAppliedResetRequired, MalformedResponse) <==> sure && nvm.Unparsable?)
            && (FailedWith(next, LockAppliedResetRequired, VerificationMismatch) <==> sure && nvm.Parsed? && !timely)
            && (GoesOn(next, ResetCommand, Reset, v.op.job.original, ctx.now) <==>
                timely && ShowsRequest(nvm.value, v.op.job.request) && v.op.streak == 1)
            && (WaitsIn(next, PreResetNvm, 1_000_000, ctx.now) <==>
                timely && !(ShowsRequest(nvm.value, v.op.job.request) && v.op.streak == 1))
            && (next.outcome.None? ==> next.streak == if ShowsRequest(nvm.value, v.op.job.request) then v.op.streak + 1 else 0)
  {
    OriginalIsValid(Answered(v));
    if Certain(v.op, error) && OriginalStands(v) && error == NoError && nvm.Parsed? {
      FirstReadActs(Answered(v), ctx, v.op.pending.value.target, v.op.pending.value.sentAt, nvm.value);
    }
  }

  /** A read after the reset: a clear is verified by one match in time, a set goes on to the
      scan. */
  lemma LastReadsDecide(v: View, ctx: Ctx, error: ErrorClass, nvm: Response<LockState>)
    requires Placed(v.op) && Enabled(v, ctx, NvmReply(error, nvm)) && v.op.phase == PostResetNvm
    ensures var next := Step(v, ctx, NvmReply(error, nvm)).op;
            var sure := Certain(v.op, error) && ReplacementStands(v) && error == NoError && !nvm.Missing?;
            var timely := sure && nvm.Parsed? && ctx.now < v.op.deadline;
            && (FailedWith(next, OutcomeUnknown, OutcomeUnknown) <==> !sure)
            && (FailedWith(next, VerificationMismatch, MalformedResponse) <==> sure && nvm.Unparsable?)
            && (FailedWith(next, VerificationMismatch, VerificationMismatch) <==> sure && nvm.Parsed? && !timely)
            && (SucceededWith(next, ClearedVerified, None) <==>
                timely && ShowsRequest(nvm.value, v.op.job.request) && v.op.job.request.ClearLock?)
            && (GoesOn(next, CellVerify, Scan, v.op.replacement.value, ctx.now) <==>
                timely && ShowsRequest(nvm.value, v.op.job.request) && v.op.job.request.SetLock?)
            && (WaitsIn(next, PostResetNvm, 1_000_000, ctx.now) <==> timely && !ShowsRequest(nvm.value, v.op.job.request))
  {
    ReplacementIsValid(Answered(v));
    if Certain(v.op, error) && ReplacementStands(v) && error == NoError && nvm.Parsed? {
      LastReadActs(Answered(v), ctx, v.op.pending.value.target, v.op.pending.value.sentAt, nvm.value);
    }
  }

  // ----- the scan --------------------------------------------------------------------------------------

  /** `c` is the last serving cell of the scan. */
  ghost predicate LastServing(cells: seq<Cell>, c: Cell) {
    exists i :: ServesAt(cells, i) && cells[i] == c && forall j | i < j < |cells| :: !cells[j].serving
  }

  predicate ServesAt(cells: seq<Cell>, i: int) {
    0 <= i < |cells| && cells[i].serving
  }

  lemma {:induction false} ServingIsLast(cells: seq<Cell>, c: Cell)
    ensures ServingCell(cells) == Some(c) <==> LastServing(cells, c)
  {
    if cells != [] {
      var last := |cells| - 1;
      if cells[last].serving {
        assert ServesAt(cells, last);
      } else {
        ServingIsLast(cells[..last], c);
        if i :| ServesAt(cells, i) && cells[i] == c && forall j | i < j < |cells| :: !cells[j].serving {
          assert ServesAt(cells[..last], i);
        }
        if i :| ServesAt(cells[..last], i) && cells[..last][i] == c && forall j | i < j < last :: !cells[..last][j].serving {
          assert ServesAt(cells, i);
          forall j | i < j < |cells| ensures !cells[j].serving { if j < last { assert !cells[..last][j].serving; } }
        }
      }
    }
  }

  /** The scan shows the requested cell: all bands are the modem's, and the last serving cell
      has the requested channel and identity, a valid one, and the channel table's band. */
  ghost predicate ShowsCell(v: View, cells: seq<Cell>, c: Cell)
    requires v.replacement.Some?
  {
    && (forall i | 0 <= i < |cells| :: cells[i].band in v.replacement.value.bands)
    && LastServing(cells, c)
    && (v.op.job.request.SetLock? ==>
          && c.earfcn == v.op.job.request.earfcn
          && (v.op.job.request.pci.Some? ==> c.pci == v.op.job.request.pci.value))
    && c.pci <= 503 && EarfcnToBand(c.earfcn) == Some(c.band)
  }

  lemma CellActs(v: View, ctx: Ctx, error: ErrorClass, cells: seq<Cell>)
    requires Placed(v.op) && Enabled(v, ctx, CellReply(error, Parsed(cells))) && ReplacementStands(v)
    requires Certain(v.op, error) && error == NoError
    ensures var next := CellReady(v, ctx, error, Parsed(cells)).op;
            && (forall c :: SucceededWith(next, AppliedVerified, Some(c)) <==> ShowsCell(v, cells, c))
            && (FailedWith(next, VerificationMismatch, VerificationMismatch) <==> forall c :: !ShowsCell(v, cells, c))
            && !FailedWith(next, OutcomeUnknown, OutcomeUnknown)
  {
    ReplacementIsValid(Answered(v));
    forall c ensures ServingCell(cells) == Some(c) <==> LastServing(cells, c) { ServingIsLast(cells, c); }
    var serving := ServingCell(cells);
    if serving.Some? {
      assert ServesAt(cells, 0) || |cells| > 0;
      assert forall c :: ShowsCell(v, cells, c) ==> c == serving.value;
    }
  }

  /** The scan decides a set: it is verified with cell `c` exactly when the replacement stands,
      nothing casts doubt on the answer and the scan shows `c`. */
  lemma CellDecides(v: View, ctx: Ctx, error: ErrorClass, scan: Response<seq<Cell>>)
    requires Placed(v.op) && Enabled(v, ctx, CellReply(error, scan))
    ensures var next := Step(v, ctx, CellReply(error, scan)).op;
            var sure := Certain(v.op, error) && ReplacementStands(v) && error == NoError && !scan.Missing?;
            && (FailedWith(next, OutcomeUnknown, OutcomeUnknown) <==> !sure)
            && (forall c :: SucceededWith(next, AppliedVerified, Some(c)) <==>
                  sure && scan.Parsed? && ShowsCell(v, scan.value, c))
            && (FailedWith(next, VerificationMismatch, VerificationMismatch) <==>
                sure && (scan.Unparsable? || forall c :: !ShowsCell(v, scan.value, c)))
  {
    ReplacementIsValid(Answered(v));
    if Certain(v.op, error) && ReplacementStands(v) && error == NoError && scan.Parsed? { CellActs(v, ctx, error, scan.value); }
  }

  // ----- the timer ---------------------------------------------------------------------------------------

  lemma ReadPollDecides(v: View, ctx: Ctx, found: Found)
    requires Placed(v.op) && Enabled(v, ctx, PollFires(found)) && (v.op.phase == PreResetNvm || v.op.phase == PostResetNvm)
    ensures var next := Step(v, ctx, PollFires(found)).op;
            var before := v.op.phase == PreResetNvm;
            var doubt := v.op.timedOut || v.op.transportLost;
            var stands := if before then OriginalStands(v) else ReplacementStands(v);
            var lost := if before then LockAppliedResetRequired else OutcomeUnknown;
            && (FailedWith(next, lost, OutcomeUnknown) <==> doubt || (ctx.now < v.op.deadline && !stands))
            && (FailedWith(next, if before then LockAppliedResetRequired else VerificationMismatch, VerificationMismatch) <==>
                !doubt && ctx.now >= v.op.deadline)
            && (GoesOn(next, v.op.phase, ReadNvm, if before then v.op.job.original else v.op.replacement.value, ctx.now) <==>
                !doubt && ctx.now < v.op.deadline && stands)
  {
    OriginalIsValid(v);
    if v.op.phase == PostResetNvm { ReplacementIsValid(v); }
  }

  lemma AdoptDecides(v: View, ctx: Ctx, ref: ModemRef, modem: Modem)
    requires v.op.outcome.None? && v.op.pending.None? && v.op.phase == Reprobe && !modem.busy
    ensures var next := PollReprobe(v, ctx, One(ref, modem)).op;
            && next.replacement == Some(ref) && next.replacementGeneration == modem.generation
            && (if modem.registered then
                  GoesOn(next, PostResetNvm, ReadNvm, ref, ctx.now) && next.deadline == ctx.now + 10_000_000
                else
                  WaitsIn(next, Registration, 1_000_000, ctx.now) && next.deadline == ctx.now + 60_000_000)
  {
  }

  /** Exactly one free object on the slot is adopted; with registration seen at once the reads
      start, else it is waited for. */
  lemma ReprobeDecides(v: View, ctx: Ctx, found: Found)
    requires Placed(v.op) && Enabled(v, ctx, PollFires(found)) && v.op.phase == Reprobe
    ensures var next := Step(v, ctx, PollFires(found)).op;
            var sure := !v.op.timedOut && !v.op.transportLost;
            var free := sure && found.One? && !found.modem.busy;
            && (FailedWith(next, OutcomeUnknown, OutcomeUnknown) <==> !sure)
            && (FailedWith(next, VerificationMismatch, VerificationMismatch) <==> sure && found.Ambiguous?)
            && (FailedWith(next, OutcomeUnknown, Busy) <==> sure && found.One? && found.modem.busy)
            && (FailedWith(next, ReprobeTimeout, ReprobeTimeout) <==> sure && found.Nobody? && ctx.now >= v.op.deadline)
            && (WaitsIn(next, Reprobe, 500_000, ctx.now) <==> sure && found.Nobody? && ctx.now < v.op.deadline)
            && (GoesOn(next, PostResetNvm, ReadNvm, if found.One? then found.ref else 0, ctx.now) <==> free && found.modem.registered)
            && (WaitsIn(next, Registration, 1_000_000, ctx.now) <==> free && !found.modem.registered)
            && (free ==>
                  && next.replacement == Some(found.ref) && next.replacementGeneration == found.modem.generation
                  && next.deadline == ctx.now + if found.modem.registered then 10_000_000 else 60_000_000)
  {
    if !v.op.timedOut && !v.op.transportLost {
      if found.One? && !found.modem.busy {
        AdoptDecides(v, ctx, found.ref, found.modem);
      } else {
        SearchGoesOn(v, ctx, found);
      }
    }
  }

  lemma SearchGoesOn(v: View, ctx: Ctx, found: Found)
    requires v.op.outcome.None? && v.op.pending.None? && v.op.phase == Reprobe && (found.One? ==> found.modem.busy)
    ensures var next := PollReprobe(v, ctx, found).op;
            match found
            case Ambiguous => FailedWith(next, VerificationMismatch, VerificationMismatch)
            case One(_, _) => FailedWith(next, OutcomeUnknown, Busy)
            case Nobody =>
              if ctx.now >= v.op.deadline then FailedWith(next, ReprobeTimeout, ReprobeTimeout)
              else WaitsIn(next, Reprobe, 500_000, ctx.now)
  {
  }

  lemma RegistrationDecides(v: View, ctx: Ctx, found: Found)
    requires Placed(v.op) && Enabled(v, ctx, PollFires(found)) && v.op.phase == Registration
    ensures var next := Step(v, ctx, PollFires(found)).op;
            var sure := !v.op.timedOut && !v.op.transportLost && ReplacementStands(v);
            var there := sure && v.replacement.value.registered;
            && (FailedWith(next, OutcomeUnknown, OutcomeUnknown) <==> !sure)
            && (FailedWith(next, RegistrationTimeout, RegistrationTimeout) <==> sure && !there && ctx.now >= v.op.deadline)
            && (GoesOn(next, PostResetNvm, ReadNvm, v.op.replacement.value, ctx.now) <==> there)
            && (WaitsIn(next, Registration, 1_000_000, ctx.now) <==> sure && !there && ctx.now < v.op.deadline)
            && (there ==> next.deadline == ctx.now + 10_000_000)
  {
    ReplacementIsValid(v);
    if !v.op.timedOut && !v.op.transportLost && ReplacementStands(v) { RegistrationActs(v, ctx); }
  }

  lemma RegistrationActs(v: View, ctx: Ctx)
    requires v.op.outcome.None? && v.op.pending.None? && v.op.phase == Registration && v.op.replacement.Some? && v.replacement.Some?
    requires ReplacementValid(v, v.op.replacement.value)
    ensures var next := PollRegistration(v, ctx).op;
            if v.replacement.value.registered then
              GoesOn(next, PostResetNvm, ReadNvm, v.op.replacement.value, ctx.now) && next.deadline == ctx.now + 10_000_000
            else if ctx.now >= v.op.deadline then FailedWith(next, RegistrationTimeout, RegistrationTimeout)
            else WaitsIn(next, Registration, 1_000_000, ctx.now)
  {
  }

  // ----- success ---------------------------------------------------------------------------------------------

  predicate NotVerified(op: Op) {
    op.outcome.Some? ==> op.outcome.value.report.Failure?
  }

  lemma CommandsVerifyNothing(v: View, ctx: Ctx, input: Input)
    requires Placed(v.op) && Enabled(v, ctx, input) && (input.ProbeReply? || input.SetReply? || input.ResetReply?)
    ensures NotVerified(Step(v, ctx, input).op)
  {
    match input
    case ProbeReply(error, probe) => ProbeDecides(v, ctx, error, probe);
    case SetReply(error, ack) => SetDecides(v, ctx, error, ack);
    case ResetReply(error) => ResetDecides(v, ctx, error);
    case _ =>
  }

  lemma PollsVerifyNothing(v: View, ctx: Ctx, found: Found)
    requires Placed(v.op) && Enabled(v, ctx, PollFires(found))
    ensures NotVerified(Step(v, ctx, PollFires(found)).op)
  {
    if v.op.phase == Reprobe {
      ReprobeDecides(v, ctx, found);
    } else if v.op.phase == Registration {
      RegistrationDecides(v, ctx, found);
    } else {
      ReadPollDecides(v, ctx, found);
    }
  }

  lemma FirstReadsVerifyNothing(v: View, ctx: Ctx, error: ErrorClass, nvm: Response<LockState>)
    requires Placed(v.op) && Enabled(v, ctx, NvmReply(error, nvm)) && v.op.phase == PreResetNvm
    ensures NotVerified(Step(v, ctx, NvmReply(error, nvm)).op)
  {
    FirstReadsDecide(v, ctx, error, nvm);
  }

  /** The read that verifies a clear. */
  predicate ReadVerifies(v: View, ctx: Ctx, input: Input) {
    && input.NvmReply? && input.error == NoError && input.nvm.Parsed? && v.op.phase == PostResetNvm
    && v.op.job.request.ClearLock? && ShowsRequest(input.nvm.value, ClearLock) && ctx.now < v.op.deadline
  }

  /** The scan that verifies a set with cell `c`. */
  ghost predicate ScanVerifies(v: View, input: Input, c: Cell)
    requires v.replacement.Some?
  {
    input.CellReply? && input.error == NoError && input.scan.Parsed? && ShowsCell(v, input.scan.value, c)
  }

  lemma LastReadsVerify(v: View, ctx: Ctx, error: ErrorClass, nvm: Response<LockState>, state: State, serving: Option<Cell>)
    requires Placed(v.op) && Enabled(v, ctx, NvmReply(error, nvm)) && v.op.phase == PostResetNvm
    ensures SucceededWith(Step(v, ctx, NvmReply(error, nvm)).op, state, serving) <==>
            && ReplacementStands(v) && !v.op.timedOut && !v.op.transportLost && ReadVerifies(v, ctx, NvmReply(error, nvm))
            && state == ClearedVerified && serving.None?
  {
    LastReadsDecide(v, ctx, error, nvm);
  }

  lemma ScanVerify(v: View, ctx: Ctx, error: ErrorClass, scan: Response<seq<Cell>>, state: State, serving: Option<Cell>)
    requires Placed(v.op) && Enabled(v, ctx, CellReply(error, scan))
    ensures SucceededWith(Step(v, ctx, CellReply(error, scan)).op, state, serving) <==>
            && ReplacementStands(v) && !v.op.timedOut && !v.op.transportLost
            && state == AppliedVerified && serving.Some? && ScanVerifies(v, CellReply(error, scan), serving.value)
  {
    CellDecides(v, ctx, error, scan);
  }

  /** An operation is verified by exactly two callbacks: a clear by a read after the reset that
      shows the cleared lock in time, a set by a scan that shows the requested cell; in both
      the replacement stands and nothing casts doubt on the answer. */
  lemma VerifiedIff(v: View, ctx: Ctx, input: Input, state: State, serving: Option<Cell>)
    requires Inv(v.op, ctx.now) && Enabled(v, ctx, input)
    ensures SucceededWith(Step(v, ctx, input).op, state, serving) <==>
            && ReplacementStands(v) && !v.op.timedOut && !v.op.transportLost
            && (|| (state == ClearedVerified && serving.None? && ReadVerifies(v, ctx, input))
                || (state == AppliedVerified && serving.Some? && ScanVerifies(v, input, serving.value)))
  {
    InvPlaces(v.op, ctx.now);
    if input.PollFires? {
      PollsVerifyNothing(v, ctx, input.found);
    } else if input.CellReply? {
      ScanVerify(v, ctx, input.error, input.scan, state, serving);
    } else if input.NvmReply? {
      if v.op.phase == PreResetNvm {
        FirstReadsVerifyNothing(v, ctx, input.error, input.nvm);
      } else {
        LastReadsVerify(v, ctx, input.error, input.nvm, state, serving);
      }
    } else {
      CommandsVerifyNothing(v, ctx, input);
    }
  }
}
