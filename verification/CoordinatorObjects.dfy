/** The coordinator as the source runs it: an operation object whose callbacks update its
    fields and the locks of the modem objects it holds. Every method is proved to do to the
    fields what the matching function of module Coordinator does to their values, so each
    theorem about those functions is a theorem about this object. */
module CoordinatorObjects {
  import opened Common
  import opened LockTypes
  import opened MutationPolicy
  import opened Coordinator
  import Arbiter

  /** A modem of the bridge: what its hardware reports and its mutation lock. */
  class ModemObject {
    const ref: ModemRef
    const generation: nat
    const physdev: Option<string>
    var live: bool
    var attestable: bool
    var registered: bool
    var bands: set<nat>
    var voltagePending: bool
    var busy: bool
    var kind: MutationKind
    var cancellable: Option<Cancellable>
    var cooldownUntil: int

    constructor (ref: ModemRef, generation: nat, physdev: Option<string>)
      ensures this.ref == ref
      ensures Value() == Modem(true, generation, physdev, false, false, {}, false, NoMutation, None, 0, false)
    {
      this.ref, this.generation, this.physdev := ref, generation, physdev;
      live, attestable, registered, bands, voltagePending := true, false, false, {}, false;
      busy, kind, cancellable, cooldownUntil := false, NoMutation, None, 0;
    }

    function Value(): Modem
      reads this
    {
      Modem(live, generation, physdev, attestable, registered, bands, busy, kind, cancellable, cooldownUntil, voltagePending)
    }

    method TakeLock(id: OpId)
      modifies this`busy, this`kind, this`cancellable
      ensures Value() == Acquire(old(Value()), id)
    {
      busy := true;
      kind := L850Mutation;
      cancellable := Some(Separate(id));
    }

    method ReleaseLock(cooldown: bool, now: int)
      modifies this`busy, this`kind, this`cancellable, this`cooldownUntil
      ensures Value() == Release(old(Value()), cooldown, now)
    {
      if cooldown {
        cooldownUntil := Max(cooldownUntil, now + POST_MUTATION_COOLDOWN);
      }
      if kind == L850Mutation {
        busy := false;
        kind := NoMutation;
        cancellable := None;
      }
    }
  }

  function Snapshot(modems: seq<ModemObject>): seq<(ModemRef, Modem)>
    reads modems
  {
    seq(|modems|, i requires 0 <= i < |modems| reads modems => (modems[i].ref, modems[i].Value()))
  }

  class MutationOperation {
    const job: Job
    const original: ModemObject
    const verifier: NvmVerifier
    var replacement: ModemObject?
    var replacementGeneration: nat
    var phase: Phase
    var deadline: int
    var timedOut: bool
    var transportLost: bool
    var deferred: bool
    var pending: Option<Pending>
    var poll: Option<Timer>
    var setDispatched: bool
    var acknowledged: bool
    var resetDispatched: bool
    var outcome: Option<Outcome>
    ghost var trace: seq<Event>

    /** The two modem objects differ, the verifier is at the stage of the phase, and every
        phase that talks to the replacement has one. */
    ghost predicate Valid()
      reads this, verifier
    {
      && job.original == original.ref
      && replacement != original
      && (phase == PreResetNvm ==> verifier.stage == PreReset)
      && (phase == PostResetNvm ==> verifier.stage == PostReset)
      && (phase == Registration || phase == PostResetNvm || phase == CellVerify ==> replacement != null)
    }

    ghost function OpValue(): Op
      reads this, verifier
    {
      Op(job, if replacement == null then None else Some(replacement.ref), replacementGeneration, phase, deadline,
         verifier.consecutiveMatches, timedOut, transportLost, deferred, pending, poll,
         setDispatched, acknowledged, resetDispatched, outcome, trace)
    }

    ghost function ViewValue(): View
      reads this, verifier, original, replacement
    {
      View(OpValue(), original.Value(), if replacement == null then None else Some(replacement.Value()))
    }

    constructor (id: OpId, request: Request, modem: ModemObject, physdev: string, ctx: Ctx)
      requires modem.physdev == Some(physdev)
      modifies modem
      ensures Valid() && original == modem && replacement == null && fresh(verifier)
      ensures ViewValue() == Begin(id, request, modem.ref, old(modem.Value()), physdev, ctx)
    {
      job := Job(id, request, physdev, modem.ref, modem.generation);
      original := modem;
      verifier := new NvmVerifier();
      replacement, replacementGeneration := null, 0;
      phase, deadline := ProtocolProbe, 0;
      timedOut, transportLost, deferred := false, false, true;
      pending, poll := Some(Pending(Probe, modem.ref, ctx.now)), None;
      setDispatched, acknowledged, resetDispatched, outcome := false, false, false, None;
      trace := [];
      new;
      modem.TakeLock(id);
    }

    // ----- small updates that every callback shares -------------------------------------------

    method Answer() returns (answered: Pending)
      requires Valid() && pending.Some?
      modifies this`pending
      ensures Valid() && ViewValue() == Answered(old(ViewValue())) && answered == old(pending.value)
    {
      answered := pending.value;
      pending := None;
    }

    method Acknowledge()
      requires Valid()
      modifies this`acknowledged
      ensures Valid() && ViewValue() == old(ViewValue()).(op := old(OpValue()).(acknowledged := true))
    {
      acknowledged := true;
    }

    ghost method Record(e: Event)
      requires Valid()
      modifies this`trace
      ensures Valid() && ViewValue() == Log(old(ViewValue()), e)
    {
      trace := trace + [e];
    }

    // ----- completion -------------------------------------------------------------------------

    method Close(result: Outcome)
      requires Valid()
      modifies this`outcome, this`deferred, this`pending, this`poll
      ensures Valid() && original.Value() == old(original.Value())
      ensures OpValue() == old(OpValue()).(outcome := Some(result), deferred := false, pending := None, poll := None)
    {
      outcome := Some(result);
      deferred := false;
      pending, poll := None, None;
    }

    method ReleaseBoth(now: int)
      requires Valid()
      modifies original, replacement
      ensures Valid() && OpValue() == old(OpValue())
      ensures original.Value() == Release(old(original.Value()), setDispatched, now)
      ensures replacement != null ==> replacement.Value() == Release(old(replacement.Value()), setDispatched, now)
    {
      if replacement != null {
        replacement.ReleaseLock(setDispatched, now);
      }
      original.ReleaseLock(setDispatched, now);
    }

    method Complete(ctx: Ctx, report: Report)
      requires Valid()
      modifies this, original, replacement
      ensures Valid() && replacement == old(replacement)
      ensures ViewValue() == Coordinator.Complete(old(ViewValue()), ctx, report)
    {
      var replied := deferred && ctx.online;
      Close(Outcome(report, replied));
      ReleaseBoth(ctx.now);
    }

    method Fail(ctx: Ctx, state: State, code: State)
      requires Valid()
      modifies this, original, replacement
      ensures Valid()
      ensures ViewValue() == Coordinator.Fail(old(ViewValue()), ctx, state, code)
    {
      Complete(ctx, Failure(state, code));
    }

    // ----- validity of the two modems -------------------------------------------------------

    function OriginalIsValid(source: ModemRef): (valid: bool)
      requires Valid()
      reads this, verifier, original, replacement
      ensures valid <==> OriginalValid(ViewValue(), source)
    {
      && original.live && original.generation == job.originalGeneration && source == original.ref
      && Attested(original.Value()) && original.physdev == Some(job.physdev)
    }

    function ReplacementIsValid(source: ModemRef): (valid: bool)
      requires Valid()
      reads this, verifier, original, replacement
      ensures valid <==> ReplacementValid(ViewValue(), source)
    {
      && replacement != null && replacement.live
      && replacement.generation == replacementGeneration && source == replacement.ref
      && Attested(replacement.Value()) && replacement.physdev == Some(job.physdev)
    }

    // ----- starting the next command ----------------------------------------------------------

    method StartReprobe(ctx: Ctx)
      requires Valid()
      modifies this
      ensures Valid() && replacement == old(replacement)
      ensures ViewValue() == Coordinator.StartReprobe(old(ViewValue()), ctx)
    {
      phase := Reprobe;
      deadline := ctx.now + REPROBE_TIMEOUT;
      poll := Some(Timer(REPROBE_POLL, ctx.now + REPROBE_POLL));
    }

    method StartReset(ctx: Ctx)
      requires Valid()
      modifies this, original, replacement
      ensures Valid()
      ensures ViewValue() == Coordinator.StartReset(old(ViewValue()), ctx)
    {
      if !OriginalIsValid(original.ref) {
        Fail(ctx, LockAppliedResetRequired, DeviceGone);
        return;
      }
      Record(ResetSent(original.ref, ctx.now, OriginalIsValid(original.ref), !timedOut && !transportLost));
      phase := ResetCommand;
      resetDispatched := true;
      pending := Some(Pending(Reset, original.ref, ctx.now));
    }

    method StartNvmCommand(ctx: Ctx)
      requires Valid() && (phase == PreResetNvm || phase == PostResetNvm)
      modifies this
      ensures Valid() && replacement == old(replacement)
      ensures ViewValue() == Coordinator.StartNvmCommand(old(ViewValue()), ctx)
    {
      var target := if phase == PreResetNvm then original else replacement;
      pending, poll := Some(Pending(ReadNvm, target.ref, ctx.now)), None;
    }

    method StartNvmVerification(ctx: Ctx, stage: Stage)
      requires Valid() && (stage == PostReset ==> replacement != null)
      modifies this, verifier
      ensures Valid() && replacement == old(replacement)
      ensures ViewValue() == Coordinator.StartNvmVerification(old(ViewValue()), ctx, stage)
    {
      phase := if stage == PreReset then PreResetNvm else PostResetNvm;
      deadline := ctx.now + NVM_VERIFY_TIMEOUT;
      verifier.Init(stage);
      StartNvmCommand(ctx);
    }

    method DispatchSet(ctx: Ctx)
      requires Valid()
      modifies this, original, replacement
      ensures Valid()
      ensures ViewValue() == Coordinator.DispatchSet(old(ViewValue()), ctx)
    {
      if !OriginalIsValid(original.ref) {
        Fail(ctx, DeviceGone, DeviceGone);
        return;
      }
      phase := SetCommand;
      setDispatched := true;
      pending := Some(Pending(Write, original.ref, ctx.now));
      Record(WriteSent(original.ref, ctx.now));
    }

    // ----- command callbacks ------------------------------------------------------------------

    method ProbeReady(ctx: Ctx, error: ErrorClass, response: Response<LockState>)
      requires Valid() && pending.Some?
      modifies this, original, replacement
      ensures Valid()
      ensures ViewValue() == Coordinator.ProbeReady(old(ViewValue()), ctx, error, response)
    {
      var answered := Answer();
      var source := answered.target;
      if phase != ProtocolProbe || !OriginalIsValid(source) {
        Fail(ctx, DeviceGone, DeviceGone);
      } else if error != NoError || response.Missing? {
        Fail(ctx, Normalized, Normalized);
      } else if response.Unparsable? {
        Fail(ctx, UnsupportedProtocol, UnsupportedProtocol);
      } else {
        Record(ProbeParsed(source, ctx.now));
        DispatchSet(ctx);
      }
    }

    method SetReady(ctx: Ctx, error: ErrorClass, response: Response<()>)
      requires Valid() && pending.Some?
      modifies this, verifier, original, replacement
      ensures Valid()
      ensures ViewValue() == Coordinator.SetReady(old(ViewValue()), ctx, error, response)
    {
      var answered := Answer();
      var source := answered.target;
      if timedOut || transportLost || error == UncertainError || !original.live || source != original.ref
         || original.generation != job.originalGeneration
      {
        Fail(ctx, OutcomeUnknown, OutcomeUnknown);
      } else if error != NoError || response.Missing? {
        Fail(ctx, Normalized, Normalized);
      } else if response.Unparsable? {
        Fail(ctx, MalformedResponse, MalformedResponse);
      } else {
        Acknowledge();
        Record(WriteAcknowledged(ctx.now));
        StartNvmVerification(ctx, PreReset);
      }
    }

    method ResetReady(ctx: Ctx, error: ErrorClass)
      requires Valid() && pending.Some?
      modifies this, original, replacement
      ensures Valid()
      ensures ViewValue() == Coordinator.ResetReady(old(ViewValue()), ctx, error)
    {
      var _ := Answer();
      if timedOut || transportLost {
        Fail(ctx, OutcomeUnknown, OutcomeUnknown);
      } else if !ShouldReprobe(FinishOf(error)) {
        Fail(ctx, LockAppliedResetRequired, Normalized);
      } else {
        Record(ResetReturned(ctx.now));
        StartReprobe(ctx);
      }
    }

    method Observe(ctx: Ctx, source: ModemRef, sentAt: int, state: LockState) returns (decision: Decision)
      requires Valid() && (phase == PreResetNvm || phase == PostResetNvm)
      modifies this`trace, verifier
      ensures Valid() && ViewValue() == Observed(old(ViewValue()), ctx, source, sentAt, state)
      ensures decision == Decide(StageOf(phase), old(verifier.consecutiveMatches), ObservationOf(job, state))
    {
      decision := verifier.Observe(if StateMatches(state, job.request) then Match else Mismatch);
      trace := trace + [NvmSeen(StageOf(phase), source, sentAt, ctx.now, state)];
    }

    method NvmObserved(ctx: Ctx, source: ModemRef, sentAt: int, state: LockState)
      requires Valid() && (phase == PreResetNvm || phase == PostResetNvm)
      modifies this, verifier, original, replacement
      ensures Valid()
      ensures ViewValue() == Coordinator.NvmObserved(old(ViewValue()), ctx, source, sentAt, state)
    {
      var preReset := phase == PreResetNvm;
      var decision := Observe(ctx, source, sentAt, state);
      if ctx.now >= deadline {
        Fail(ctx, if preReset then LockAppliedResetRequired else VerificationMismatch, VerificationMismatch);
      } else if decision == Retry {
        poll := Some(Timer(NVM_VERIFY_POLL, ctx.now + NVM_VERIFY_POLL));
      } else if preReset {
        StartReset(ctx);
      } else if job.request.ClearLock? {
        Complete(ctx, Verified(ClearedVerified, None));
      } else {
        StartCellCheck(ctx);
      }
    }

    method StartCellCheck(ctx: Ctx)
      requires Valid() && phase == PostResetNvm
      modifies this`phase, this`pending
      ensures Valid() && ViewValue() == Coordinator.StartCellCheck(old(ViewValue()), ctx)
    {
      phase := CellVerify;
      pending := Some(Pending(Scan, replacement.ref, ctx.now));
    }

    method NvmReady(ctx: Ctx, error: ErrorClass, response: Response<LockState>)
      requires Valid() && pending.Some?
      modifies this, verifier, original, replacement
      ensures Valid()
      ensures ViewValue() == Coordinator.NvmReady(old(ViewValue()), ctx, error, response)
    {
      var answered := Answer();
      var source := answered.target;
      var preReset := phase == PreResetNvm;
      if (phase != PreResetNvm && phase != PostResetNvm)
         || (preReset && !OriginalIsValid(source)) || (!preReset && !ReplacementIsValid(source))
         || timedOut || transportLost || error != NoError || response.Missing?
      {
        Fail(ctx, if preReset then LockAppliedResetRequired else OutcomeUnknown, OutcomeUnknown);
      } else if response.Unparsable? {
        var _ := verifier.Observe(Invalid);
        Fail(ctx, if preReset then LockAppliedResetRequired else VerificationMismatch, MalformedResponse);
      } else {
        NvmObserved(ctx, source, answered.sentAt, response.value);
      }
    }

    /** The scan loop: every cell must be on a supported band, the last serving one counts. */
    method InspectCells(cells: seq<Cell>, bands: set<nat>) returns (supported: bool, serving: Option<Cell>)
      ensures supported <==> forall i | 0 <= i < |cells| :: cells[i].band in bands
      ensures supported ==> serving == ServingCell(cells)
    {
      serving := None;
      var i := 0;
      while i < |cells|
        invariant i <= |cells|
        invariant forall k | 0 <= k < i :: cells[k].band in bands
        invariant serving == ServingCell(cells[..i])
      {
        assert cells[..i + 1][..i] == cells[..i];
        if cells[i].band !in bands {
          return false, serving;
        }
        if cells[i].serving {
          serving := Some(cells[i]);
        }
        i := i + 1;
      }
      assert cells[..i] == cells;
      supported := true;
    }

    method CellReady(ctx: Ctx, error: ErrorClass, response: Response<seq<Cell>>)
      requires Valid() && pending.Some?
      modifies this, original, replacement
      ensures Valid()
      ensures ViewValue() == Coordinator.CellReady(old(ViewValue()), ctx, error, response)
    {
      var answered := Answer();
      var source := answered.target;
      if !ReplacementIsValid(source) || timedOut || transportLost || error != NoError || response.Missing? {
        Fail(ctx, OutcomeUnknown, OutcomeUnknown);
        return;
      }
      if response.Unparsable? {
        Fail(ctx, VerificationMismatch, VerificationMismatch);
        return;
      }
      var supported, serving := InspectCells(response.value, replacement.bands);
      if !supported || serving.None? || !CellMatches(serving.value, job.request)
         || !Storable(replacement.Value(), serving.value)
      {
        Fail(ctx, VerificationMismatch, VerificationMismatch);
      } else {
        Record(ServingSeen(source, serving.value, ctx.now));
        Complete(ctx, Verified(AppliedVerified, serving));
      }
    }

    // ----- timers -----------------------------------------------------------------------------

    /** Walk the snapshot of live modems; stop at the second match. */
    method FindReplacement(modems: seq<ModemObject>) returns (hit: ModemObject?, ambiguous: bool)
      requires Valid()
      ensures var found := Search(OpValue(), Snapshot(modems), |modems|);
              match found
              case Nobody => hit == null && !ambiguous
              case Ambiguous => hit == null && ambiguous
              case One(ref, m) => hit != null && hit in modems && !ambiguous && ref == hit.ref && m == hit.Value()
    {
      hit, ambiguous := null, false;
      ghost var snapshot := Snapshot(modems);
      ghost var op := OpValue();
      var i := 0;
      while i < |modems|
        invariant i <= |modems| && !ambiguous
        invariant match Search(op, snapshot, i)
                  case Nobody => hit == null
                  case Ambiguous => false
                  case One(ref, m) => hit != null && hit in modems && ref == hit.ref && m == hit.Value()
      {
        var candidate := modems[i];
        if candidate.ref != job.original && candidate.generation != job.originalGeneration
           && candidate.physdev == Some(job.physdev) && Attested(candidate.Value())
        {
          if hit != null {
            AmbiguousStays(op, snapshot, i + 1, |modems|);
            return null, true;
          }
          hit := candidate;
        }
        i := i + 1;
      }
    }

    /** Take the found object as replacement and lock it. */
    method Hold(modem: ModemObject)
      requires Valid() && replacement == null && modem != original
      modifies this`replacement, this`replacementGeneration, modem
      ensures Valid() && replacement == modem
      ensures ViewValue() == View(
                old(OpValue()).(replacement := Some(modem.ref), replacementGeneration := modem.generation),
                old(original.Value()), Some(Acquire(old(modem.Value()), job.id)))
    {
      replacement := modem;
      replacementGeneration := modem.generation;
      modem.TakeLock(job.id);
    }

    method Adopt(ctx: Ctx, modem: ModemObject)
      requires Valid() && replacement == null && modem != original
      modifies this, modem
      ensures Valid() && replacement == modem && phase == Registration
      ensures ViewValue() == Coordinator.Adopt(old(ViewValue()), ctx, modem.ref, old(modem.Value()))
    {
      ghost var adopted := Adopted(modem.ref, modem.generation, modem.physdev, Attested(modem.Value()), ctx.now);
      Hold(modem);
      phase := Registration;
      deadline := ctx.now + REGISTRATION_TIMEOUT;
      poll := None;
      Record(adopted);
    }

    method PollReprobe(ctx: Ctx, modems: seq<ModemObject>)
      requires Valid() && replacement == null
      modifies this, verifier, original, modems
      ensures Valid()
      ensures ViewValue() ==
              Coordinator.PollReprobe(old(ViewValue()), ctx, Search(old(OpValue()), old(Snapshot(modems)), |modems|))
    {
      var hit, ambiguous := FindReplacement(modems);
      if ambiguous {
        Fail(ctx, VerificationMismatch, VerificationMismatch);
      } else if hit == null {
        if ctx.now >= deadline {
          Fail(ctx, ReprobeTimeout, ReprobeTimeout);
        } else {
          Record(StillAbsent(ctx.now));
          poll := Some(Timer(REPROBE_POLL, ctx.now + REPROBE_POLL));
        }
      } else if hit.busy {
        Fail(ctx, OutcomeUnknown, Busy);
      } else {
        SearchFits(OpValue(), Snapshot(modems), |modems|);
        var registered := hit.registered;
        Adopt(ctx, hit);
        if registered {
          Record(Registered(hit.ref, ctx.now));
          StartNvmVerification(ctx, PostReset);
        } else {
          poll := Some(Timer(REGISTRATION_POLL, ctx.now + REGISTRATION_POLL));
        }
      }
    }

    method PollRegistration(ctx: Ctx)
      requires Valid() && replacement != null
      modifies this, verifier, original, replacement
      ensures Valid()
      ensures ViewValue() == Coordinator.PollRegistration(old(ViewValue()), ctx)
    {
      if !ReplacementIsValid(replacement.ref) {
        Fail(ctx, OutcomeUnknown, OutcomeUnknown);
      } else if replacement.registered {
        Record(Registered(replacement.ref, ctx.now));
        StartNvmVerification(ctx, PostReset);
      } else if ctx.now >= deadline {
        Fail(ctx, RegistrationTimeout, RegistrationTimeout);
      } else {
        Record(StillSearching(ctx.now));
        poll := Some(Timer(REGISTRATION_POLL, ctx.now + REGISTRATION_POLL));
      }
    }

    method PollNvm(ctx: Ctx)
      requires Valid() && (phase == PreResetNvm || phase == PostResetNvm)
      modifies this, original, replacement
      ensures Valid()
      ensures ViewValue() == Coordinator.PollNvm(old(ViewValue()), ctx)
    {
      var preReset := phase == PreResetNvm;
      if ctx.now >= deadline {
        Fail(ctx, if preReset then LockAppliedResetRequired else VerificationMismatch, VerificationMismatch);
      } else if (preReset && !OriginalIsValid(original.ref)) || (!preReset && !ReplacementIsValid(replacement.ref)) {
        Fail(ctx, if preReset then LockAppliedResetRequired else OutcomeUnknown, OutcomeUnknown);
      } else {
        StartNvmCommand(ctx);
      }
    }

    method Poll(ctx: Ctx, modems: seq<ModemObject>)
      requires Valid() && (phase == Reprobe ==> replacement == null)
      modifies this, verifier, original, replacement, modems
      ensures Valid()
      ensures ViewValue() ==
              Coordinator.Poll(old(ViewValue()), ctx, Search(old(OpValue()), old(Snapshot(modems)), |modems|))
    {
      if timedOut || transportLost {
        Fail(ctx, if phase == PreResetNvm then LockAppliedResetRequired else OutcomeUnknown, OutcomeUnknown);
      } else if phase == PreResetNvm || phase == PostResetNvm {
        PollNvm(ctx);
      } else if phase == Reprobe {
        PollReprobe(ctx, modems);
      } else if phase == Registration {
        PollRegistration(ctx);
      } else {
        Fail(ctx, OutcomeUnknown, OutcomeUnknown);
      }
    }

    method TimeOut()
      requires Valid()
      modifies this
      ensures Valid() && ViewValue() == Coordinator.TimeOut(old(ViewValue()))
    {
      timedOut := true;
    }

    method LoseTransport()
      requires Valid()
      modifies this
      ensures Valid() && ViewValue() == Coordinator.LoseTransport(old(ViewValue()))
    {
      transportLost := true;
      deferred := false;
    }
  }

  // ----- the slot search ----------------------------------------------------------------------

  lemma {:induction false} AmbiguousStays(op: Op, snapshot: seq<(ModemRef, Modem)>, n: nat, m: nat)
    requires n <= m <= |snapshot| && Search(op, snapshot, n).Ambiguous?
    ensures Search(op, snapshot, m).Ambiguous?
  {
    if n < m { AmbiguousStays(op, snapshot, n, m - 1); }
  }

  lemma {:induction false} SearchFits(op: Op, snapshot: seq<(ModemRef, Modem)>, n: nat)
    requires n <= |snapshot|
    ensures FoundFits(op, Search(op, snapshot, n))
  {
    if n > 0 { SearchFits(op, snapshot, n - 1); }
  }

  predicate Hit(op: Op, snapshot: seq<(ModemRef, Modem)>, i: int) {
    0 <= i < |snapshot| && IsReplacement(op, snapshot[i].0, snapshot[i].1)
  }

  /** The counting loop decides exactly between no match, one match and several, whatever
      the order of the snapshot. */
  lemma {:induction false} SearchIsExact(op: Op, snapshot: seq<(ModemRef, Modem)>, n: nat)
    requires n <= |snapshot|
    ensures match Search(op, snapshot, n)
            case Nobody => forall i | 0 <= i < n :: !Hit(op, snapshot, i)
            case One(ref, m) =>
              exists i | 0 <= i < n ::
                Hit(op, snapshot, i) && snapshot[i] == (ref, m) && forall j | 0 <= j < n && Hit(op, snapshot, j) :: j == i
            case Ambiguous => exists i, j | 0 <= i < j < n :: Hit(op, snapshot, i) && Hit(op, snapshot, j)
  {
    if n > 0 {
      SearchIsExact(op, snapshot, n - 1);
      var before := Search(op, snapshot, n - 1);
      if before.One? && Hit(op, snapshot, n - 1) {
        var i :| 0 <= i < n - 1 && Hit(op, snapshot, i) && snapshot[i] == (before.ref, before.modem);
        assert Hit(op, snapshot, i) && Hit(op, snapshot, n - 1);
      } else if before.Nobody? && Hit(op, snapshot, n - 1) {
        assert Hit(op, snapshot, n - 1) && forall j | 0 <= j < n && Hit(op, snapshot, j) :: j == n - 1;
      }
    }
  }

  /** `snapshot` lists each live modem object of the world once. */
  ghost predicate Lists(w: Arbiter.World, snapshot: seq<(ModemRef, Modem)>) {
    && (forall i | 0 <= i < |snapshot| :: snapshot[i].0 in w.modems && snapshot[i].1 == w.modems[snapshot[i].0] && snapshot[i].1.live)
    && (forall i, j | 0 <= i < j < |snapshot| :: snapshot[i].0 != snapshot[j].0)
    && (forall ref | ref in w.modems && w.modems[ref].live :: exists i | 0 <= i < |snapshot| :: snapshot[i].0 == ref)
  }

  /** The object's search gives the answer that the arbitration model lets a poll see. */
  lemma SearchAnswersWorld(w: Arbiter.World, op: Op, snapshot: seq<(ModemRef, Modem)>)
    requires Lists(w, snapshot)
    ensures Arbiter.FoundIn(w, op, Search(op, snapshot, |snapshot|))
  {
    SearchIsExact(op, snapshot, |snapshot|);
    forall ref | Arbiter.Candidate(w, op, ref)
      ensures exists i | 0 <= i < |snapshot| :: Hit(op, snapshot, i) && snapshot[i].0 == ref
    {
      var i :| 0 <= i < |snapshot| && snapshot[i].0 == ref;
      assert Hit(op, snapshot, i);
    }
    var found := Search(op, snapshot, |snapshot|);
    if found.Ambiguous? {
      var i, j :| 0 <= i < j < |snapshot| && Hit(op, snapshot, i) && Hit(op, snapshot, j);
      assert Arbiter.Candidate(w, op, snapshot[i].0) && Arbiter.Candidate(w, op, snapshot[j].0);
    } else if found.One? {
      var i :| 0 <= i < |snapshot| && Hit(op, snapshot, i) && snapshot[i] == (found.ref, found.modem)
               && forall j | 0 <= j < |snapshot| && Hit(op, snapshot, j) :: j == i;
      assert Arbiter.Candidate(w, op, snapshot[i].0);
    }
  }
}
