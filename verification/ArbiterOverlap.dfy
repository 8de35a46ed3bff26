/** A history in which exclusion fails: two live modem objects on one slot, a scan on one of
    them, and a cell-lock change on the other that, after its reset, adopts the scanned
    object, because adoption tests only the busy flag. */
module ArbiterOverlap {
  import opened Common
  import opened LockTypes
  import opened MutationPolicy
  import opened Coordinator
  import opened Arbiter
  import opened ArbiterExclusion

  const SLOT: string := "slot"
  const CLEARED: LockState := LockState(false, false, CLEAR_FREQUENCY, PCI_WILDCARD, 0)
  const SCAN_ID: OpId := 7
  const CHANGE_ID: OpId := 3

  function Fresh(generation: nat): Modem {
    Modem(true, generation, Some(SLOT), true, true, {}, false, NoMutation, None, 0, false)
  }

  /** The change at each of its stages. */
  function Stage(k: nat): Op {
    var job := Job(CHANGE_ID, ClearLock, SLOT, 0, 1);
    var begun := Op(job, None, 0, ProtocolProbe, 0, 0, false, false, true,
                    Some(Pending(Probe, 0, 0)), None, false, false, false, None, []);
    var written := begun.(phase := SetCommand, setDispatched := true, pending := Some(Pending(Write, 0, 0)),
                          trace := [ProbeParsed(0, 0), WriteSent(0, 0)]);
    var reading := written.(phase := PreResetNvm, acknowledged := true, deadline := 10 * SECOND,
                            pending := Some(Pending(ReadNvm, 0, 0)), trace := written.trace + [WriteAcknowledged(0)]);
    var once := reading.(streak := 1, pending := None, poll := Some(Timer(SECOND, SECOND)),
                         trace := reading.trace + [NvmSeen(PreReset, 0, 0, 0, CLEARED)]);
    var again := once.(pending := Some(Pending(ReadNvm, 0, SECOND)), poll := None);
    var reset := again.(phase := ResetCommand, streak := 2, resetDispatched := true, pending := Some(Pending(Reset, 0, SECOND)),
                        trace := again.trace + [NvmSeen(PreReset, 0, SECOND, SECOND, CLEARED)] + [ResetSent(0, SECOND, true, true)]);
    var waiting := reset.(phase := Reprobe, deadline := 46 * SECOND, pending := None,
                          poll := Some(Timer(REPROBE_POLL, SECOND + REPROBE_POLL)),
                          trace := reset.trace + [ResetReturned(SECOND)]);
    match k
    case 0 => begun
    case 1 => written
    case 2 => reading
    case 3 => once
    case 4 => again
    case 5 => reset
    case _ => waiting
  }

  /** The world while the change is at that stage. */
  function During(k: nat, now: int): World {
    World(now, true, 2, map[0 := Acquire(Fresh(1), CHANGE_ID), 1 := Fresh(2)],
          map[SCAN_ID := ScanOp(1), CHANGE_ID := MutationOp(Stage(k))], map[])
  }

  function Answer(k: nat): Input {
    match k
    case 0 => ProbeReply(NoError, Parsed(CLEARED))
    case 1 => SetReply(NoError, Parsed(()))
    case 2 => NvmReply(NoError, Parsed(CLEARED))
    case 3 => PollFires(One(1, Fresh(2)))
    case 4 => NvmReply(NoError, Parsed(CLEARED))
    case _ => ResetReply(NoError)
  }

  function Clock(k: nat): int {
    if k < 3 then 0 else SECOND
  }

  function ViewAt(k: nat): View {
    View(Stage(k), Acquire(Fresh(1), CHANGE_ID), None)
  }

  /** One callback of the change, on its view alone. */
  lemma StageSteps(k: nat)
    requires k < 6
    ensures Coordinator.Enabled(ViewAt(k), Ctx(Clock(k), true), Answer(k))
    ensures Coordinator.Step(ViewAt(k), Ctx(Clock(k), true), Answer(k)) == ViewAt(k + 1)
  {
  }

  lemma OneCandidate(k: nat, now: int)
    ensures FoundIn(During(k, now), Stage(k), One(1, Fresh(2)))
  {
  }

  lemma ViewDuring(k: nat)
    requires k < 6
    ensures ViewOf(During(k, Clock(k)), Stage(k)) == ViewAt(k)
    ensures PutView(During(k, Clock(k)), CHANGE_ID, ViewAt(k + 1)) == During(k + 1, Clock(k))
  {
  }

  lemma WorldSteps(k: nat)
    requires k < 6
    ensures var e := Callback(CHANGE_ID, Answer(k));
            && Arbiter.Enabled(During(k, Clock(k)), e)
            && Arbiter.Step(During(k, Clock(k)), e) == During(k + 1, Clock(k))
  {
    StageSteps(k);
    OneCandidate(k, Clock(k));
    ViewDuring(k);
  }

  // ----- the history ----------------------------------------------------------------------------

  function Plugged(): World {
    World(0, true, 2, map[0 := Fresh(1), 1 := Fresh(2)], map[], map[])
  }

  function Scanning(): World {
    Plugged().(ops := map[SCAN_ID := ScanOp(1)])
  }

  /** Some history from the initial state ends in `w`. */
  ghost predicate Reachable(w: World) {
    exists states, events :: EndsIn(states, events, w)
  }

  ghost predicate EndsIn(states: seq<World>, events: seq<Arbiter.Event>, w: World) {
    History(states, events) && states[|events|] == w
  }

  ghost predicate Follows(w: World, e: Arbiter.Event, v: World) {
    Arbiter.Enabled(w, e) && v == Arbiter.Step(w, e)
  }

  lemma ReachStep(w: World, e: Arbiter.Event, v: World)
    requires Reachable(w) && Follows(w, e, v)
    ensures Reachable(v)
  {
    var states, events :| EndsIn(states, events, w);
    var longer, more := states + [v], events + [e];
    forall k | 0 <= k < |more| ensures Arbiter.Enabled(longer[k], more[k]) && longer[k + 1] == Arbiter.Step(longer[k], more[k]) {
      if k < |events| { assert longer[k] == states[k] && more[k] == events[k] && longer[k + 1] == states[k + 1]; }
    }
    assert EndsIn(longer, more, v);
  }

  function FirstPlugged(): World {
    World(0, true, 1, map[0 := Fresh(1)], map[], map[])
  }

  lemma PlugSteps()
    ensures Follows(Init(), Plug(0, Some(SLOT), true, true, {}), FirstPlugged())
    ensures Follows(FirstPlugged(), Plug(1, Some(SLOT), true, true, {}), Plugged())
  {
    assert Admitted(Init()) == {} && Admitted(FirstPlugged()) == {0};
    assert Init().modems[0 := Fresh(1)] == map[0 := Fresh(1)];
    assert FirstPlugged().modems[1 := Fresh(2)] == Plugged().modems;
  }

  lemma ScanStep()
    ensures Follows(Plugged(), Ask(SCAN_ID, 1, 2, AskScan), Scanning())
  {
    assert Plugged().ops[SCAN_ID := ScanOp(1)] == Scanning().ops;
  }

  /** The admission of the change looks at the scans of its own object only. */
  lemma ChangeStep()
    ensures Follows(Scanning(), Ask(CHANGE_ID, 0, 1, AskMutation(ClearLock)), During(0, 0))
  {
    var w := Scanning();
    assert Admits(w, 0, 1, AskMutation(ClearLock));
    assert Begin(CHANGE_ID, ClearLock, 0, Fresh(1), SLOT, Ctx(0, true)).op == Stage(0);
    assert w.modems[0 := Acquire(Fresh(1), CHANGE_ID)] == During(0, 0).modems;
    assert w.ops[CHANGE_ID := MutationOp(Stage(0))] == During(0, 0).ops;
  }

  lemma ChangeBegins()
    ensures Reachable(During(0, 0))
  {
    var start: seq<Arbiter.Event> := [];
    assert EndsIn([Init()], start, Init());
    PlugSteps();
    ReachStep(Init(), Plug(0, Some(SLOT), true, true, {}), FirstPlugged());
    ReachStep(FirstPlugged(), Plug(1, Some(SLOT), true, true, {}), Plugged());
    ScanStep();
    ReachStep(Plugged(), Ask(SCAN_ID, 1, 2, AskScan), Scanning());
    ChangeStep();
    ReachStep(Scanning(), Ask(CHANGE_ID, 0, 1, AskMutation(ClearLock)), During(0, 0));
  }

  /** Probe, write, first read, a second's wait, second read, reset. */
  lemma {:induction false} ChangeGoesOn(k: nat)
    requires k <= 6
    ensures Reachable(During(k, Clock(k)))
  {
    if k == 0 {
      ChangeBegins();
    } else {
      ChangeGoesOn(k - 1);
      WorldSteps(k - 1);
      ReachStep(During(k - 1, Clock(k - 1)), Callback(CHANGE_ID, Answer(k - 1)), During(k, Clock(k - 1)));
      if k == 3 { ReachStep(During(3, 0), Advance(1_000_000), During(3, SECOND)); }
    }
  }

  /** The poll of the waiting change finds the scanned object. */
  function AdoptScanned(): Arbiter.Event {
    Callback(CHANGE_ID, PollFires(One(1, Fresh(2))))
  }

  lemma ScannedIsAdopted()
    ensures var w := During(6, SECOND + REPROBE_POLL); Arbiter.Enabled(w, AdoptScanned()) && Overlaps(w, AdoptScanned())
  {
    var w := During(6, SECOND + REPROBE_POLL);
    OneCandidate(6, SECOND + REPROBE_POLL);
    assert SCAN_ID in w.ops && Uses(w.ops[SCAN_ID], 1);
  }

  /** A state that a history reaches with two live objects on one slot, and in which the
      replacement has two users. */
  lemma ExclusionCanFail() returns (w: World, other: OpId)
    ensures Reachable(w) && !Exclusive(w) && SharedBy(w, other, CHANGE_ID, 1)
  {
    var waiting := During(6, SECOND + REPROBE_POLL);
    ChangeGoesOn(6);
    ReachStep(During(6, SECOND), Advance(500_000), waiting);
    ScannedIsAdopted();
    w := Arbiter.Step(waiting, AdoptScanned());
    ReachStep(waiting, AdoptScanned(), w);
    var states, events :| EndsIn(states, events, waiting);
    HistoryRuns(states, events, |events|);
    OverlapBreaks(waiting, AdoptScanned());
    other :| SharedBy(w, other, CHANGE_ID, 1);
  }
}
