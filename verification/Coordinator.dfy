/** The cell-lock mutation coordinator (ubus_glib.c): one asynchronous operation that probes,
    writes the lock, reads it back twice, resets the modem, waits for the same slot to come
    back, waits for registration, reads the lock once more and, for a set, checks the
    serving cell. This module gives each callback as a function from the state before it to
    the state after it. Times are microseconds of the monotonic clock. */
module Coordinator {
  import opened Common
  import opened EarfcnTable
  import opened LockTypes
  import opened MutationPolicy

  type ModemRef = nat
  type OpId = nat

  const SECOND: int := 1_000_000
  const NVM_VERIFY_TIMEOUT: int := 10 * SECOND
  const NVM_VERIFY_POLL: int := SECOND
  const REPROBE_TIMEOUT: int := 45 * SECOND
  const REPROBE_POLL: int := 500_000
  const REGISTRATION_TIMEOUT: int := 60 * SECOND
  const REGISTRATION_POLL: int := SECOND
  const POST_MUTATION_COOLDOWN: int := 60 * SECOND

  datatype MutationKind = NoMutation | SmsMutation | AdvancedMutation | L850Mutation

  /** Identity of the cancellable stored in a modem's lock: the operation's own one for SMS
      and band/mode changes, a separate object for the cell-lock coordinator. */
  datatype Cancellable = Shared(op: OpId) | Separate(op: OpId)

  datatype Modem = Modem(
    live: bool,
    generation: nat,
    physdev: Option<string>,
    attestable: bool,
    registered: bool,
    bands: set<nat>,
    busy: bool,
    kind: MutationKind,
    cancellable: Option<Cancellable>,
    cooldownUntil: int,
    voltagePending: bool)

  predicate Attested(m: Modem) {
    m.live && m.attestable && m.physdev.Some? && m.physdev.value != ""
  }

  datatype Phase =
    | ProtocolProbe | SetCommand | PreResetNvm | ResetCommand
    | Reprobe | Registration | PostResetNvm | CellVerify

  datatype Command = Probe | Write | ReadNvm | Reset | Scan
  datatype Pending = Pending(command: Command, target: ModemRef, sentAt: int)
  datatype Timer = Timer(interval: int, due: int)

  /** Errors of a finished command, classified as the source's error tables do. */
  datatype ErrorClass = NoError | UncertainError | UnclassifiedError | DefiniteError

  /** Text of a finished command after its parser: absent, rejected or accepted. */
  datatype Response<T> = Missing | Unparsable | Parsed(value: T)

  datatype State =
    | AppliedVerified | ClearedVerified | OutcomeUnknown | LockAppliedResetRequired
    | ReprobeTimeout | RegistrationTimeout | VerificationMismatch
    | DeviceGone | UnsupportedProtocol | MalformedResponse | Busy | Normalized

  datatype Report =
    | Failure(state: State, code: State)
    | Verified(state: State, serving: Option<Cell>)

  datatype Outcome = Outcome(report: Report, replied: bool)

  /** What is fixed for the life of an operation. */
  datatype Job = Job(id: OpId, request: Request, physdev: string, original: ModemRef, originalGeneration: nat)

  /** Everything the operation dispatched or learned, in order. */
  datatype Event =
    | ProbeParsed(target: ModemRef, at: int)
    | WriteSent(target: ModemRef, at: int)
    | WriteAcknowledged(at: int)
    | NvmSeen(stage: Stage, target: ModemRef, sentAt: int, at: int, state: LockState)
    | ResetSent(target: ModemRef, at: int, targetValid: bool, clean: bool)
    | ResetReturned(at: int)
    | StillAbsent(at: int)
    | Adopted(target: ModemRef, generation: nat, physdev: Option<string>, attested: bool, at: int)
    | StillSearching(at: int)
    | Registered(target: ModemRef, at: int)
    | ServingSeen(target: ModemRef, cell: Cell, at: int)

  datatype Op = Op(
    job: Job,
    replacement: Option<ModemRef>,
    replacementGeneration: nat,
    phase: Phase,
    deadline: int,
    streak: nat,
    timedOut: bool,
    transportLost: bool,
    deferred: bool,
    pending: Option<Pending>,
    poll: Option<Timer>,
    setDispatched: bool,
    acknowledged: bool,
    resetDispatched: bool,
    outcome: Option<Outcome>,
    trace: seq<Event>)

  /** The operation together with the modem objects it holds. */
  datatype View = View(op: Op, original: Modem, replacement: Option<Modem>)

  /** Clock and whether a reply can still be delivered. */
  datatype Ctx = Ctx(now: int, online: bool)

  /** Result of searching the live modems for the reset modem's slot. */
  datatype Found = Nobody | Ambiguous | One(ref: ModemRef, modem: Modem)

  // ----- modem lock ---------------------------------------------------------------------

  function Acquire(m: Modem, id: OpId): Modem {
    m.(busy := true, kind := L850Mutation, cancellable := Some(Separate(id)))
  }

  /** The coordinator's release looks only at the kind of the lock, not at its cancellable. */
  function Release(m: Modem, cooldown: bool, now: int): Modem {
    var cooled := if cooldown then m.(cooldownUntil := Max(m.cooldownUntil, now + POST_MUTATION_COOLDOWN)) else m;
    if m.kind == L850Mutation then cooled.(busy := false, kind := NoMutation, cancellable := None) else cooled
  }

  // ----- shared steps -------------------------------------------------------------------

  predicate OriginalValid(v: View, source: ModemRef) {
    && v.original.live
    && v.original.generation == v.op.job.originalGeneration
    && source == v.op.job.original
    && Attested(v.original)
    && v.original.physdev == Some(v.op.job.physdev)
  }

  predicate ReplacementValid(v: View, source: ModemRef) {
    && v.replacement.Some?
    && v.replacement.value.live
    && v.replacement.value.generation == v.op.replacementGeneration
    && v.op.replacement == Some(source)
    && Attested(v.replacement.value)
    && v.replacement.value.physdev == Some(v.op.job.physdev)
  }

  predicate Uncertainty(op: Op, error: ErrorClass) {
    op.timedOut || op.transportLost || error == UncertainError
  }

  function Log(v: View, e: Event): View {
    v.(op := v.op.(trace := v.op.trace + [e]))
  }

  function Complete(v: View, ctx: Ctx, report: Report): View {
    var outcome := Outcome(report, v.op.deferred && ctx.online);
    View(
      v.op.(outcome := Some(outcome), deferred := false, pending := None, poll := None),
      Release(v.original, v.op.setDispatched, ctx.now),
      if v.replacement.Some? then Some(Release(v.replacement.value, v.op.setDispatched, ctx.now)) else None)
  }

  function Fail(v: View, ctx: Ctx, state: State, code: State): View {
    Complete(v, ctx, Failure(state, code))
  }

  function StartReprobe(v: View, ctx: Ctx): View {
    v.(op := v.op.(phase := Reprobe, deadline := ctx.now + REPROBE_TIMEOUT,
                   poll := Some(Timer(REPROBE_POLL, ctx.now + REPROBE_POLL))))
  }

  function StartReset(v: View, ctx: Ctx): View {
    if !OriginalValid(v, v.op.job.original) then
      Fail(v, ctx, LockAppliedResetRequired, DeviceGone)
    else
      var sent := ResetSent(v.op.job.original, ctx.now, OriginalValid(v, v.op.job.original), !v.op.timedOut && !v.op.transportLost);
      Log(v.(op := v.op.(phase := ResetCommand, resetDispatched := true,
                         pending := Some(Pending(Reset, v.op.job.original, ctx.now)))), sent)
  }

  function NvmTarget(op: Op): ModemRef {
    if op.phase == PreResetNvm || op.replacement.None? then op.job.original else op.replacement.value
  }

  function StartNvmCommand(v: View, ctx: Ctx): View {
    v.(op := v.op.(pending := Some(Pending(ReadNvm, NvmTarget(v.op), ctx.now)), poll := None))
  }

  function StartNvmVerification(v: View, ctx: Ctx, stage: Stage): View {
    var phase := if stage == PreReset then PreResetNvm else PostResetNvm;
    StartNvmCommand(
      v.(op := v.op.(phase := phase, deadline := ctx.now + NVM_VERIFY_TIMEOUT, streak := 0)), ctx)
  }

  function DispatchSet(v: View, ctx: Ctx): View {
    if !OriginalValid(v, v.op.job.original) then
      Fail(v, ctx, DeviceGone, DeviceGone)
    else
      Log(v.(op := v.op.(phase := SetCommand, setDispatched := true,
                         pending := Some(Pending(Write, v.op.job.original, ctx.now)))),
          WriteSent(v.op.job.original, ctx.now))
  }

  // ----- command callbacks --------------------------------------------------------------

  function Answered(v: View): View {
    v.(op := v.op.(pending := None))
  }

  function ProbeReady(v: View, ctx: Ctx, error: ErrorClass, response: Response<LockState>): View
    requires v.op.pending.Some?
  {
    var source := v.op.pending.value.target;
    var w := Answered(v);
    if w.op.phase != ProtocolProbe || !OriginalValid(w, source) then Fail(w, ctx, DeviceGone, DeviceGone)
    else if error != NoError || response.Missing? then Fail(w, ctx, Normalized, Normalized)
    else if response.Unparsable? then Fail(w, ctx, UnsupportedProtocol, UnsupportedProtocol)
    else DispatchSet(Log(w, ProbeParsed(source, ctx.now)), ctx)
  }

  function SetReady(v: View, ctx: Ctx, error: ErrorClass, response: Response<()>): View
    requires v.op.pending.Some?
  {
    var source := v.op.pending.value.target;
    var w := Answered(v);
    if Uncertainty(w.op, error) || !w.original.live || source != w.op.job.original
       || w.original.generation != w.op.job.originalGeneration then
      Fail(w, ctx, OutcomeUnknown, OutcomeUnknown)
    else if error != NoError || response.Missing? then Fail(w, ctx, Normalized, Normalized)
    else if response.Unparsable? then Fail(w, ctx, MalformedResponse, MalformedResponse)
    else
      StartNvmVerification(
        Log(w.(op := w.op.(acknowledged := true)), WriteAcknowledged(ctx.now)), ctx, PreReset)
  }

  function FinishOf(error: ErrorClass): ResetFinish {
    match error
    case NoError => Clean
    case UncertainError => Uncertain
    case UnclassifiedError => UnclassifiedFailure
    case DefiniteError => DefiniteFailure
  }

  function ResetReady(v: View, ctx: Ctx, error: ErrorClass): View
    requires v.op.pending.Some?
  {
    var w := Answered(v);
    if w.op.timedOut || w.op.transportLost then Fail(w, ctx, OutcomeUnknown, OutcomeUnknown)
    else if !ShouldReprobe(FinishOf(error)) then Fail(w, ctx, LockAppliedResetRequired, Normalized)
    else StartReprobe(Log(w, ResetReturned(ctx.now)), ctx)
  }

  function StageOf(phase: Phase): Stage {
    if phase == PreResetNvm then PreReset else PostReset
  }

  function StartCellCheck(v: View, ctx: Ctx): View {
    v.(op := v.op.(phase := CellVerify, pending := Some(Pending(Scan, NvmTarget(v.op), ctx.now))))
  }

  function ObservationOf(job: Job, state: LockState): Observation {
    if StateMatches(state, job.request) then Match else Mismatch
  }

  function Observed(v: View, ctx: Ctx, source: ModemRef, sentAt: int, state: LockState): View {
    var stage := StageOf(v.op.phase);
    Log(v.(op := v.op.(streak := NextStreak(stage, v.op.streak, ObservationOf(v.op.job, state)))),
        NvmSeen(stage, source, sentAt, ctx.now, state))
  }

  function ActOn(seen: View, ctx: Ctx, decision: Decision): View {
    var preReset := seen.op.phase == PreResetNvm;
    if ctx.now >= seen.op.deadline then
      Fail(seen, ctx, if preReset then LockAppliedResetRequired else VerificationMismatch, VerificationMismatch)
    else if decision == Retry then
      seen.(op := seen.op.(poll := Some(Timer(NVM_VERIFY_POLL, ctx.now + NVM_VERIFY_POLL))))
    else if preReset then StartReset(seen, ctx)
    else if seen.op.job.request.ClearLock? then Complete(seen, ctx, Verified(ClearedVerified, None))
    else StartCellCheck(seen, ctx)
  }

  /** A valid, certain and parsed read: feed the verifier, then act on its decision. */
  function NvmObserved(v: View, ctx: Ctx, source: ModemRef, sentAt: int, state: LockState): View {
    ActOn(Observed(v, ctx, source, sentAt, state), ctx,
          Decide(StageOf(v.op.phase), v.op.streak, ObservationOf(v.op.job, state)))
  }

  function NvmReady(v: View, ctx: Ctx, error: ErrorClass, response: Response<LockState>): View
    requires v.op.pending.Some?
  {
    var source := v.op.pending.value.target;
    var preReset := v.op.phase == PreResetNvm;
    var w := Answered(v);
    if (w.op.phase != PreResetNvm && w.op.phase != PostResetNvm)
       || (preReset && !OriginalValid(w, source)) || (!preReset && !ReplacementValid(w, source))
       || Uncertainty(w.op, error) || error != NoError || response.Missing? then
      Fail(w, ctx, if preReset then LockAppliedResetRequired else OutcomeUnknown, OutcomeUnknown)
    else if response.Unparsable? then
      Fail(w.(op := w.op.(streak := NextStreak(StageOf(w.op.phase), w.op.streak, Invalid))), ctx,
           if preReset then LockAppliedResetRequired else VerificationMismatch, MalformedResponse)
    else NvmObserved(w, ctx, source, v.op.pending.value.sentAt, response.value)
  }

  predicate Storable(m: Modem, cell: Cell) {
    && m.live && cell.pci <= PCI_MAX
    && EarfcnToBand(cell.earfcn) == Some(cell.band)
    && cell.band in m.bands
  }

  /** Last serving entry of a scan; the parser admits at most one. */
  function ServingCell(cells: seq<Cell>): Option<Cell> {
    if cells == [] then None
    else if cells[|cells| - 1].serving then Some(cells[|cells| - 1])
    else ServingCell(cells[..|cells| - 1])
  }

  function CellReady(v: View, ctx: Ctx, error: ErrorClass, response: Response<seq<Cell>>): View
    requires v.op.pending.Some?
  {
    var source := v.op.pending.value.target;
    var w := Answered(v);
    if !ReplacementValid(w, source) || Uncertainty(w.op, error) || error != NoError || response.Missing? then
      Fail(w, ctx, OutcomeUnknown, OutcomeUnknown)
    else if response.Unparsable? then
      Fail(w, ctx, VerificationMismatch, VerificationMismatch)
    else
      var serving := ServingCell(response.value);
      if (exists i | 0 <= i < |response.value| :: response.value[i].band !in w.replacement.value.bands)
         || serving.None? || !CellMatches(serving.value, w.op.job.request)
         || !Storable(w.replacement.value, serving.value) then
        Fail(w, ctx, VerificationMismatch, VerificationMismatch)
      else
        Complete(Log(w, ServingSeen(source, serving.value, ctx.now)), ctx, Verified(AppliedVerified, serving))
  }

  // ----- timers -------------------------------------------------------------------------

  function Adopt(v: View, ctx: Ctx, ref: ModemRef, modem: Modem): View {
    Log(View(
          v.op.(replacement := Some(ref), replacementGeneration := modem.generation,
                phase := Registration, deadline := ctx.now + REGISTRATION_TIMEOUT, poll := None),
          v.original, Some(Acquire(modem, v.op.job.id))),
        Adopted(ref, modem.generation, modem.physdev, Attested(modem), ctx.now))
  }

  function PollReprobe(v: View, ctx: Ctx, found: Found): View {
    match found
    case Ambiguous => Fail(v, ctx, VerificationMismatch, VerificationMismatch)
    case One(ref, modem) =>
      if modem.busy then Fail(v, ctx, OutcomeUnknown, Busy)
      else
        var w := Adopt(v, ctx, ref, modem);
        if modem.registered then
          StartNvmVerification(Log(w, Registered(ref, ctx.now)), ctx, PostReset)
        else
          w.(op := w.op.(poll := Some(Timer(REGISTRATION_POLL, ctx.now + REGISTRATION_POLL))))
    case Nobody =>
      if ctx.now >= v.op.deadline then Fail(v, ctx, ReprobeTimeout, ReprobeTimeout)
      else
        var w := Log(v, StillAbsent(ctx.now));
        w.(op := w.op.(poll := Some(Timer(REPROBE_POLL, ctx.now + REPROBE_POLL))))
  }

  function PollRegistration(v: View, ctx: Ctx): View {
    if v.op.replacement.None? || !ReplacementValid(v, v.op.replacement.value) then
      Fail(v, ctx, OutcomeUnknown, OutcomeUnknown)
    else if v.replacement.value.registered then
      StartNvmVerification(Log(v, Registered(v.op.replacement.value, ctx.now)), ctx, PostReset)
    else if ctx.now >= v.op.deadline then Fail(v, ctx, RegistrationTimeout, RegistrationTimeout)
    else
      var w := Log(v, StillSearching(ctx.now));
      w.(op := w.op.(poll := Some(Timer(REGISTRATION_POLL, ctx.now + REGISTRATION_POLL))))
  }

  function PollNvm(v: View, ctx: Ctx): View {
    var preReset := v.op.phase == PreResetNvm;
    if ctx.now >= v.op.deadline then
      Fail(v, ctx, if preReset then LockAppliedResetRequired else VerificationMismatch, VerificationMismatch)
    else if (preReset && !OriginalValid(v, v.op.job.original))
            || (!preReset && (v.op.replacement.None? || !ReplacementValid(v, v.op.replacement.value))) then
      Fail(v, ctx, if preReset then LockAppliedResetRequired else OutcomeUnknown, OutcomeUnknown)
    else StartNvmCommand(v, ctx)
  }

  function Poll(v: View, ctx: Ctx, found: Found): View {
    if v.op.timedOut || v.op.transportLost then
      Fail(v, ctx, if v.op.phase == PreResetNvm then LockAppliedResetRequired else OutcomeUnknown, OutcomeUnknown)
    else match v.op.phase
      case PreResetNvm => PollNvm(v, ctx)
      case PostResetNvm => PollNvm(v, ctx)
      case Reprobe => PollReprobe(v, ctx, found)
      case Registration => PollRegistration(v, ctx)
      case _ => Fail(v, ctx, OutcomeUnknown, OutcomeUnknown)
  }

  function TimeOut(v: View): View {
    v.(op := v.op.(timedOut := true))
  }

  function LoseTransport(v: View): View {
    v.(op := v.op.(transportLost := true, deferred := false))
  }

  function Begin(id: OpId, request: Request, ref: ModemRef, modem: Modem, physdev: string, ctx: Ctx): View {
    View(
      Op(Job(id, request, physdev, ref, modem.generation), None, 0, ProtocolProbe, 0, 0, false, false, true,
         Some(Pending(Probe, ref, ctx.now)), None, false, false, false, None, []),
      Acquire(modem, id), None)
  }

  // ----- one step of the operation ------------------------------------------------------

  datatype Input =
    | ProbeReply(error: ErrorClass, probe: Response<LockState>)
    | SetReply(error: ErrorClass, ack: Response<()>)
    | NvmReply(error: ErrorClass, nvm: Response<LockState>)
    | ResetReply(error: ErrorClass)
    | CellReply(error: ErrorClass, scan: Response<seq<Cell>>)
    | PollFires(found: Found)

  function CommandOf(input: Input): Command
    requires !input.PollFires?
  {
    match input
    case ProbeReply(_, _) => Probe
    case SetReply(_, _) => Write
    case NvmReply(_, _) => ReadNvm
    case ResetReply(_) => Reset
    case CellReply(_, _) => Scan
  }

  /** The test the slot search puts to each modem object of the snapshot. */
  predicate IsReplacement(op: Op, ref: ModemRef, m: Modem) {
    && ref != op.job.original && m.generation != op.job.originalGeneration
    && m.physdev == Some(op.job.physdev) && Attested(m)
  }

  /** The search over the first `n` objects: one hit is remembered, a second is ambiguous. */
  function Search(op: Op, snapshot: seq<(ModemRef, Modem)>, n: nat): Found
    requires n <= |snapshot|
  {
    if n == 0 then Nobody
    else
      var found, last := Search(op, snapshot, n - 1), snapshot[n - 1];
      if !IsReplacement(op, last.0, last.1) then found
      else if found.Nobody? then One(last.0, last.1)
      else Ambiguous
  }

  /** A slot search may only return a live, attested modem object on the same slot that is
      neither the original object nor of its generation. */
  predicate FoundFits(op: Op, found: Found) {
    found.One? ==>
      && found.ref != op.job.original
      && found.modem.generation != op.job.originalGeneration
      && found.modem.physdev == Some(op.job.physdev)
      && Attested(found.modem)
  }

  /** Commands call back once for the command that is pending; timers never fire early. */
  predicate Enabled(v: View, ctx: Ctx, input: Input) {
    && v.op.outcome.None?
    && match input
       case PollFires(found) => v.op.poll.Some? && v.op.poll.value.due <= ctx.now && FoundFits(v.op, found)
       case _ => v.op.pending.Some? && v.op.pending.value.command == CommandOf(input)
  }

  function Step(v: View, ctx: Ctx, input: Input): View
    requires Enabled(v, ctx, input)
  {
    match input
    case ProbeReply(error, probe) => ProbeReady(v, ctx, error, probe)
    case SetReply(error, ack) => SetReady(v, ctx, error, ack)
    case NvmReply(error, nvm) => NvmReady(v, ctx, error, nvm)
    case ResetReply(error) => ResetReady(v, ctx, error)
    case CellReply(error, scan) => CellReady(v, ctx, error, scan)
    case PollFires(found) => Poll(v, ctx, found)
  }
}
