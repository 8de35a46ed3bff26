/** Per-modem arbitration (ubus_glib.c): SMS, band/mode, cell-lock, scan, carrier, status and
    voltage operations each pass a different admission check. The world below interleaves
    requests, completions, coordinator callbacks, removals and replacements in any order. */
module Arbiter {
  import opened Common
  import opened LockTypes
  import opened Coordinator

  const MAX_ADMITTED_MODEMS: nat := 32
  const MAX_UINT32: nat := 0xFFFF_FFFF
  const ADVANCED_COOLDOWN: int := 10 * SECOND

  datatype AnyOp =
    | SmsOp(modem: ModemRef)
    | AdvancedOp(modem: ModemRef)
    | ScanOp(modem: ModemRef)
    | CarrierOp(modem: ModemRef)
    | StatusOp(modem: ModemRef)
    | VoltageQuery(modem: ModemRef, generation: nat)
    | MutationOp(op: Op)

  /** Modem objects, operations in flight and the coordinator operations that have ended. */
  datatype World = World(
    now: int,
    online: bool,
    nextGeneration: nat,
    modems: map<ModemRef, Modem>,
    ops: map<OpId, AnyOp>,
    done: map<OpId, Op>)

  datatype Ask =
    | AskSms | AskAdvanced | AskScan | AskCarrier | AskStatus | AskVoltage
    | AskMutation(request: Request)

  datatype Event =
    | Advance(time: nat)
    | Plug(ref: ModemRef, physdev: Option<string>, attestable: bool, registered: bool, bands: set<nat>)
    | Unplug(ref: ModemRef)
    | Observe(ref: ModemRef, attestable: bool, registered: bool, bands: set<nat>)
    | Ask(id: OpId, ref: ModemRef, generation: nat, ask: Ask)
    | Finish(id: OpId)
    | Callback(id: OpId, input: Input)
    | Expire(id: OpId)
    | Disconnect
    | Reconnect

  // ----- admission checks ---------------------------------------------------------------

  /** By hardware slot, so that it also covers a modem object that has not been adopted yet. */
  predicate ActiveMutation(w: World, m: Modem) {
    && m.physdev.Some? && m.physdev.value != ""
    && exists id | id in w.ops :: w.ops[id].MutationOp? && w.ops[id].op.job.physdev == m.physdev.value
  }

  predicate ActiveScan(w: World, ref: ModemRef) {
    exists id | id in w.ops :: w.ops[id] == ScanOp(ref)
  }

  predicate ActiveCarrier(w: World, ref: ModemRef) {
    exists id | id in w.ops :: w.ops[id] == CarrierOp(ref)
  }

  /** The lookup shared by the SMS, band/mode and expert methods. */
  predicate Lookup(w: World, ref: ModemRef, generation: nat) {
    && ref in w.modems && w.modems[ref].live && w.modems[ref].generation == generation
    && Attested(w.modems[ref])
    && !ActiveMutation(w, w.modems[ref]) && !ActiveScan(w, ref) && !ActiveCarrier(w, ref)
    && !w.modems[ref].voltagePending
  }

  predicate Admits(w: World, ref: ModemRef, generation: nat, ask: Ask) {
    match ask
    case AskSms => Lookup(w, ref, generation) && !w.modems[ref].busy
    case AskAdvanced =>
      Lookup(w, ref, generation) && !w.modems[ref].busy && w.modems[ref].cooldownUntil <= w.now
    case AskScan => Lookup(w, ref, generation) && !w.modems[ref].busy && !ActiveScan(w, ref)
    case AskCarrier =>
      Lookup(w, ref, generation) && !w.modems[ref].busy && !ActiveScan(w, ref) && !ActiveCarrier(w, ref)
    case AskStatus => Lookup(w, ref, generation)
    case AskVoltage =>
      && ref in w.modems && w.modems[ref].live && !w.modems[ref].voltagePending
      && Attested(w.modems[ref]) && !w.modems[ref].busy
      && !ActiveMutation(w, w.modems[ref]) && !ActiveScan(w, ref) && !ActiveCarrier(w, ref)
    case AskMutation(_) =>
      && Lookup(w, ref, generation) && !w.modems[ref].busy && !w.modems[ref].voltagePending
      && w.modems[ref].cooldownUntil <= w.now
  }

  // ----- transitions --------------------------------------------------------------------

  function Lock(m: Modem, kind: MutationKind, cancellable: Cancellable): Modem {
    m.(busy := true, kind := kind, cancellable := Some(cancellable))
  }

  /** SMS and band/mode operations unlock only a lock that carries their own cancellable. */
  function Unlock(m: Modem, kind: MutationKind, id: OpId): Modem {
    if m.kind == kind && m.cancellable == Some(Shared(id))
    then m.(busy := false, kind := NoMutation, cancellable := None) else m
  }

  function Put(w: World, ref: ModemRef, m: Modem, id: OpId, op: AnyOp): World {
    w.(modems := w.modems[ref := m], ops := w.ops[id := op])
  }

  function Start(w: World, id: OpId, ref: ModemRef, ask: Ask): World
    requires ref in w.modems && (ask.AskMutation? ==> w.modems[ref].physdev.Some?)
  {
    var m := w.modems[ref];
    match ask
    case AskSms => Put(w, ref, Lock(m, SmsMutation, Shared(id)), id, SmsOp(ref))
    case AskAdvanced =>
      var locked := Lock(m, AdvancedMutation, Shared(id));
      Put(w, ref, locked.(cooldownUntil := Max(m.cooldownUntil, w.now + ADVANCED_COOLDOWN)), id, AdvancedOp(ref))
    case AskScan => w.(ops := w.ops[id := ScanOp(ref)])
    case AskCarrier => w.(ops := w.ops[id := CarrierOp(ref)])
    case AskStatus => w.(ops := w.ops[id := StatusOp(ref)])
    case AskVoltage => Put(w, ref, m.(voltagePending := true), id, VoltageQuery(ref, m.generation))
    case AskMutation(request) =>
      var v := Begin(id, request, ref, m, m.physdev.value, Ctx(w.now, w.online));
      Put(w, ref, v.original, id, MutationOp(v.op))
  }

  function End(w: World, id: OpId): World
    requires id in w.ops && !w.ops[id].MutationOp? && w.ops[id].modem in w.modems
  {
    var ref := w.ops[id].modem;
    var m := w.modems[ref];
    var ended := match w.ops[id]
      case SmsOp(_) => Unlock(m, SmsMutation, id)
      case AdvancedOp(_) =>
        Unlock(m.(cooldownUntil := Max(m.cooldownUntil, w.now + ADVANCED_COOLDOWN)), AdvancedMutation, id)
      case VoltageQuery(_, generation) =>
        if m.live && m.generation == generation then m.(voltagePending := false) else m
      case _ => m;
    w.(modems := w.modems[ref := ended], ops := w.ops - {id})
  }

  function ViewOf(w: World, op: Op): View
    requires op.job.original in w.modems && (op.replacement.Some? ==> op.replacement.value in w.modems)
  {
    View(op, w.modems[op.job.original], if op.replacement.Some? then Some(w.modems[op.replacement.value]) else None)
  }

  function PutView(w: World, id: OpId, v: View): World {
    var modems := w.modems[v.op.job.original := v.original];
    var both := if v.op.replacement.Some? && v.replacement.Some?
                then modems[v.op.replacement.value := v.replacement.value] else modems;
    if v.op.outcome.None? then w.(modems := both, ops := w.ops[id := MutationOp(v.op)])
    else w.(modems := both, ops := w.ops - {id}, done := w.done[id := v.op])
  }

  predicate Candidate(w: World, op: Op, ref: ModemRef) {
    && ref in w.modems && ref != op.job.original
    && w.modems[ref].live && w.modems[ref].generation != op.job.originalGeneration
    && w.modems[ref].physdev == Some(op.job.physdev) && Attested(w.modems[ref])
  }

  /** Outcome of the slot search over the live modem objects, in whatever order. */
  ghost predicate FoundIn(w: World, op: Op, found: Found) {
    match found
    case Nobody => forall ref :: !Candidate(w, op, ref)
    case One(ref, m) => Candidate(w, op, ref) && m == w.modems[ref] && forall other :: Candidate(w, op, other) ==> other == ref
    case Ambiguous => exists a, b :: Candidate(w, op, a) && Candidate(w, op, b) && a != b
  }

  function Admitted(w: World): set<ModemRef> {
    set ref | ref in w.modems && w.modems[ref].live
  }

  predicate RefsKnown(w: World, o: AnyOp) {
    if o.MutationOp? then
      o.op.job.original in w.modems && (o.op.replacement.Some? ==> o.op.replacement.value in w.modems)
    else o.modem in w.modems
  }

  ghost predicate Enabled(w: World, e: Event) {
    match e
    case Plug(ref, _, _, _, _) => ref !in w.modems
    case Unplug(ref) => ref in w.modems
    case Observe(ref, _, _, _) => ref in w.modems
    case Ask(id, ref, _, _) => id !in w.ops && id !in w.done && ref in w.modems
    case Finish(id) => id in w.ops && !w.ops[id].MutationOp? && RefsKnown(w, w.ops[id])
    case Callback(id, input) =>
      && id in w.ops && w.ops[id].MutationOp? && RefsKnown(w, w.ops[id])
      && Coordinator.Enabled(ViewOf(w, w.ops[id].op), Ctx(w.now, w.online), input)
      && (input.PollFires? ==> FoundIn(w, w.ops[id].op, input.found))
    case Expire(id) => id in w.ops && w.ops[id].MutationOp?
    case _ => true
  }

  function LoseAll(ops: map<OpId, AnyOp>): map<OpId, AnyOp> {
    map id | id in ops ::
      if ops[id].MutationOp? then MutationOp(ops[id].op.(transportLost := true, deferred := false)) else ops[id]
  }

  ghost function Step(w: World, e: Event): World
    requires Enabled(w, e)
  {
    match e
    case Advance(time) => w.(now := w.now + time)
    case Plug(ref, physdev, attestable, registered, bands) =>
      if |Admitted(w)| >= MAX_ADMITTED_MODEMS || w.nextGeneration == MAX_UINT32 then w
      else
        var m := Modem(true, w.nextGeneration + 1, physdev, attestable, registered, bands,
                       false, NoMutation, None, 0, false);
        w.(nextGeneration := w.nextGeneration + 1, modems := w.modems[ref := m])
    case Unplug(ref) =>
      w.(modems := w.modems[ref := w.modems[ref].(live := false, voltagePending := false)])
    case Observe(ref, attestable, registered, bands) =>
      w.(modems := w.modems[ref := w.modems[ref].(attestable := attestable, registered := registered, bands := bands)])
    case Ask(id, ref, generation, ask) =>
      if Admits(w, ref, generation, ask) then Start(w, id, ref, ask) else w
    case Finish(id) => End(w, id)
    case Callback(id, input) =>
      PutView(w, id, Coordinator.Step(ViewOf(w, w.ops[id].op), Ctx(w.now, w.online), input))
    case Expire(id) => w.(ops := w.ops[id := MutationOp(w.ops[id].op.(timedOut := true))])
    case Disconnect => w.(online := false, ops := LoseAll(w.ops))
    case Reconnect => w.(online := true)
  }

  function Init(): World {
    World(0, true, 0, map[], map[], map[])
  }
}
