/** The send operation and its retry tokens (ubus_glib.c): when a second dispatch of
    `Sms.Send` under the same token is possible, over every run. */
module SmsSend {
  import opened Common
  import opened SmsDedupe

  /** The operation that holds the SMS lock of the modem. */
  datatype SendOp = SendOp(token: Token, digest: Digest, id: string, epoch: nat, dispatched: bool)

  /** What happened, in order. `Open` is an admitted request; `Store` a later store of its
      token, fresh when it had to be inserted again. */
  datatype Happening =
    | Open(token: Token, digest: Digest, id: string, at: int)
    | Store(token: Token, at: int, inserted: bool)
    | Dispatch(token: Token, digest: Digest)
    | End(token: Token, code: Code)
    | NewEpoch

  datatype World = World(queue: seq<Entry>, op: Option<SendOp>, epoch: nat, now: int, log: seq<Happening>)

  datatype Event =
    | Wait(time: nat)
    | Ask(token: Token, digest: Digest, id: string)
    | CreateFails(code: Code)
    | Created
    | SendFails(code: Code)
    | SendSucceeds
    | Reconcile

  datatype Answer = Busy | Cached(code: Code, id: string) | Conflict | Admitted

  /** The token queue is consulted before the busy flag. */
  function Answering(w: World, token: Token, digest: Digest): Answer {
    var q := Pruned(w.queue, w.now);
    var i := Position(q, token);
    if i < |q| then if q[i].digest != digest then Conflict else Cached(q[i].code, q[i].id)
    else if w.op.Some? then Busy
    else Admitted
  }

  function Note(w: World, h: Happening): World {
    w.(log := w.log + [h])
  }

  function Stale(w: World): bool
    requires w.op.Some?
  {
    w.op.value.epoch != w.epoch
  }

  function Admit(w: World, token: Token, digest: Digest, id: string): World {
    Note(w.(queue := Stored(w.queue, Entry(token, digest, id, InFlight, Expiry(w.now)), w.now),
            op := Some(SendOp(token, digest, id, w.epoch, false))),
         Open(token, digest, id, w.now))
  }

  /** Store the outcome under the operation's token. */
  function StoreOutcome(w: World, code: Code): World
    requires w.op.Some?
  {
    var o := w.op.value;
    Note(w.(queue := Stored(w.queue, Entry(o.token, o.digest, o.id, code, Expiry(w.now)), w.now)),
         Store(o.token, w.now, !Has(Pruned(w.queue, w.now), o.token)))
  }

  function Finish(w: World, code: Code): World
    requires w.op.Some?
  {
    Note(w.(op := None), End(w.op.value.token, code))
  }

  /** An uncertain outcome is kept under the token; every other failure frees it. */
  function CompleteError(w: World, code: Code): World
    requires w.op.Some?
  {
    if !Stale(w) && code == OutcomeUnknown then Finish(StoreOutcome(w, code), code)
    else Finish(w.(queue := Removed(w.queue, w.op.value.token, w.now)), code)
  }

  predicate Enabled(w: World, e: Event) {
    match e
    case CreateFails(code) => w.op.Some? && !w.op.value.dispatched && (code == Definite || code == OutcomeUnknown)
    case Created => w.op.Some? && !w.op.value.dispatched
    case SendFails(code) => w.op.Some? && w.op.value.dispatched && (code == Definite || code == OutcomeUnknown)
    case SendSucceeds => w.op.Some? && w.op.value.dispatched
    case _ => true
  }

  function Step(w: World, e: Event): World
    requires Enabled(w, e)
  {
    match e
    case Wait(time) => w.(now := w.now + time)
    case Ask(token, digest, id) =>
      if Answering(w, token, digest) == Admitted then Admit(w, token, digest, id)
      else w.(queue := Pruned(w.queue, w.now))
    case CreateFails(code) => CompleteError(w, code)
    case Created =>
      if Stale(w) then CompleteError(w, Definite)
      else Note(w.(op := Some(w.op.value.(dispatched := true))), Dispatch(w.op.value.token, w.op.value.digest))
    case SendFails(code) => CompleteError(w, code)
    case SendSucceeds => if Stale(w) then Finish(w, Sent) else Finish(StoreOutcome(w, Sent), Sent)
    case Reconcile => Note(w.(queue := [], epoch := w.epoch + 1), NewEpoch)
  }

  function Start(): World {
    World([], None, 0, 0, [])
  }

  ghost predicate History(states: seq<World>, events: seq<Event>) {
    && |states| == |events| + 1 && states[0] == Start()
    && forall k | 0 <= k < |events| :: Enabled(states[k], events[k]) && states[k + 1] == Step(states[k], events[k])
  }

  // ----- reading the log -----------------------------------------------------------------------------

  /** What the log says of a token in the current epoch: free, or held since it was last
      inserted, last stored at `last`, with the tokens in `after` inserted later; `code` is in
      flight until the operation that opened it, for message `id`, ended with one. */
  datatype Fate = Clear | Held(digest: Digest, last: int, after: set<Token>, id: string, code: Code)

  function NextFate(fate: Fate, token: Token, h: Happening): Fate {
    match h
    case Open(t, digest, id, at) =>
      if t == token then Held(digest, at, {}, id, InFlight)
      else if fate.Held? then fate.(after := fate.after + {t})
      else Clear
    case Store(t, at, inserted) =>
      if fate.Clear? then Clear
      else if t == token then fate.(last := at, after := if inserted then {} else fate.after)
      else if inserted then fate.(after := fate.after + {t})
      else fate
    case Dispatch(_, _) => fate
    case End(t, code) =>
      if t != token || fate.Clear? then fate
      else if code == Definite then Clear
      else fate.(code := code)
    case NewEpoch => Clear
  }

  function FateOf(log: seq<Happening>, token: Token): Fate {
    if log == [] then Clear else NextFate(FateOf(log[..|log| - 1], token), token, log[|log| - 1])
  }

  /** Nothing holds the token any more: it was freed, 300 s passed since its last store, or
      64 other tokens were inserted after it. */
  predicate Released(fate: Fate, now: int) {
    fate.Clear? || Expired(Expiry(fate.last), now) || |fate.after| >= DEDUPE_MAX
  }

  /** The operation that the log leaves open. */
  datatype Current = Idle | Running(token: Token, dispatched: bool)

  function NextCurrent(c: Current, h: Happening): Current {
    match h
    case Open(t, _, _, _) => Running(t, false)
    case Dispatch(t, _) => Running(t, true)
    case End(_, _) => Idle
    case _ => c
  }

  function CurrentOf(log: seq<Happening>): Current {
    if log == [] then Idle else NextCurrent(CurrentOf(log[..|log| - 1]), log[|log| - 1])
  }

  /** Every request was opened with no other in progress and its token released, every
      dispatch is the first of the operation in progress, under its own digest, and what ends
      is the operation in progress. */
  ghost predicate Proper(log: seq<Happening>, k: nat)
    requires k < |log|
  {
    match log[k]
    case Open(t, _, _, at) => CurrentOf(log[..k]).Idle? && Released(FateOf(log[..k], t), at)
    case Dispatch(t, digest) =>
      && CurrentOf(log[..k]) == Running(t, false)
      && FateOf(log[..k], t).Held? && FateOf(log[..k], t).digest == digest
    case End(t, _) => RunningOf(log[..k], t)
    case _ => true
  }

  /** An operation under this token is in progress. */
  ghost predicate RunningOf(log: seq<Happening>, token: Token) {
    CurrentOf(log).Running? && CurrentOf(log).token == token
  }

  ghost predicate AllProper(log: seq<Happening>) {
    forall k | 0 <= k < |log| :: Proper(log, k)
  }

  lemma FateAppend(log: seq<Happening>, h: Happening, token: Token)
    ensures FateOf(log + [h], token) == NextFate(FateOf(log, token), token, h)
  {
    assert (log + [h])[..|log|] == log;
  }

  lemma CurrentAppend(log: seq<Happening>, h: Happening)
    ensures CurrentOf(log + [h]) == NextCurrent(CurrentOf(log), h)
  {
    assert (log + [h])[..|log|] == log;
  }

  lemma ProperAppend(log: seq<Happening>, h: Happening)
    requires AllProper(log) && Proper(log + [h], |log|)
    ensures AllProper(log + [h])
  {
    forall k | 0 <= k < |log + [h]| ensures Proper(log + [h], k) {
      if k < |log| {
        assert Proper(log, k);
        assert (log + [h])[..k] == log[..k];
      }
    }
  }

  // ----- the invariant -----------------------------------------------------------------------------------

  /** A token the log holds is retained by the queue, or has left it: by expiry, or after 64
      later tokens. */
  ghost predicate Covered(q: seq<Entry>, token: Token, fate: Fate, now: int) {
    fate.Held? ==>
      || |fate.after| >= DEDUPE_MAX
      || Retained(q, token, fate.digest, fate.last, fate.after)
      || (Expired(Expiry(fate.last), now) && !Has(q, token))
  }

  ghost predicate AllCovered(w: World) {
    forall t :: Covered(w.queue, t, FateOf(w.log, t), w.now)
  }

  ghost predicate OpMatches(op: Option<SendOp>, c: Current) {
    if op.None? then c.Idle? else c == Running(op.value.token, op.value.dispatched)
  }

  /** The operation's own token is held under its digest for as long as its epoch lasts, and
      free once the epoch is over. */
  ghost predicate OpHolds(w: World) {
    w.op.Some? ==>
      var fate := FateOf(w.log, w.op.value.token);
      && w.op.value.epoch <= w.epoch
      && (if Stale(w) then fate.Clear? else fate.Held? && fate.digest == w.op.value.digest)
  }

  ghost predicate Inv(w: World) {
    && QueueOk(w.queue) && AllProper(w.log) && AllCovered(w)
    && OpMatches(w.op, CurrentOf(w.log)) && OpHolds(w)
  }

  lemma WaitKeeps(w: World, time: nat)
    requires Inv(w)
    ensures Inv(w.(now := w.now + time))
  {
    var v := w.(now := w.now + time);
    forall t ensures Covered(v.queue, t, FateOf(v.log, t), v.now) {
      assert Covered(w.queue, t, FateOf(w.log, t), w.now);
    }
  }

  lemma PruneCovers(q: seq<Entry>, t: Token, fate: Fate, now: int)
    requires QueueOk(q) && Covered(q, t, fate, now)
    ensures Covered(Pruned(q, now), t, fate, now)
  {
    PrunedKeepsSome(q, now);
    NotHeld(q, t);
    NotHeld(Pruned(q, now), t);
    if fate.Held? && Retained(q, t, fate.digest, fate.last, fate.after) {
      if now < Expiry(fate.last) {
        PruneRetains(q, t, fate.digest, fate.last, fate.after, now);
      } else if Has(Pruned(q, now), t) {
        SurvivorIsTimely(q, t, fate.digest, fate.last, fate.after, now);
      }
    }
  }

  /** Every operation prunes first. */
  lemma PruneKeeps(w: World)
    requires Inv(w)
    ensures Inv(w.(queue := Pruned(w.queue, w.now)))
  {
    PrunedKeepsSome(w.queue, w.now);
    var v := w.(queue := Pruned(w.queue, w.now));
    forall t ensures Covered(v.queue, t, FateOf(v.log, t), v.now) {
      assert Covered(w.queue, t, FateOf(w.log, t), w.now);
      PruneCovers(w.queue, t, FateOf(w.log, t), w.now);
    }
  }

  /** A token without an entry is released. */
  lemma AbsentIsReleased(w: World, token: Token)
    requires AllCovered(w) && !Has(w.queue, token)
    ensures Released(FateOf(w.log, token), w.now)
  {
    var fate := FateOf(w.log, token);
    assert Covered(w.queue, token, fate, w.now);
    if fate.Held? && Retained(w.queue, token, fate.digest, fate.last, fate.after) {
      RetainedIsHeld(w.queue, token, fate.digest, fate.last, fate.after);
    }
  }

  /** Storing `e` keeps every other token covered. */
  lemma PutCoversOther(p: seq<Entry>, e: Entry, now: int, t: Token, fate: Fate, next: Fate)
    requires QueueOk(p) && Covered(p, t, fate, now) && t != e.token
    requires next == if fate.Held? && !Has(p, e.token) then fate.(after := fate.after + {e.token}) else fate
    ensures Covered(Put(p, e), t, next, now)
  {
    if fate.Held? {
      SubsetSize(fate.after, next.after);
      PutKeepsQueue(p, e);
      NotHeld(p, t);
      NotHeld(Put(p, e), t);
      if Retained(p, t, fate.digest, fate.last, fate.after) {
        PutOtherRetains(p, e, t, fate.digest, fate.last, fate.after);
      }
    }
  }

  /** World `v` follows from `w`, whose queue is pruned, by storing `e` and noting `h`. */
  ghost predicate Puts(w: World, v: World, e: Entry, h: Happening) {
    && v.queue == Put(w.queue, e) && v.log == w.log + [h] && v.now == w.now && v.epoch == w.epoch
    && e.expiresAt == Expiry(w.now)
    && (|| (h == Open(e.token, e.digest, e.id, w.now) && !Has(w.queue, e.token))
        || (h == Store(e.token, w.now, !Has(w.queue, e.token)) && HeldAs(w, e)))
  }

  ghost predicate HeldAs(w: World, e: Entry) {
    FateOf(w.log, e.token).Held? && FateOf(w.log, e.token).digest == e.digest
  }

  lemma PutCovers(w: World, v: World, e: Entry, h: Happening, t: Token)
    requires QueueOk(w.queue) && AllCovered(w) && Puts(w, v, e, h)
    ensures Covered(v.queue, t, FateOf(v.log, t), v.now)
  {
    var fate := FateOf(w.log, t);
    FateAppend(w.log, h, t);
    assert Covered(w.queue, t, fate, w.now);
    if t != e.token {
      PutCoversOther(w.queue, e, w.now, t, fate, NextFate(fate, t, h));
    } else if !Has(w.queue, t) {
      PutSelfRetains(w.queue, e, w.now);
    } else if Retained(w.queue, t, fate.digest, fate.last, fate.after) {
      RefreshRetains(w.queue, e, fate.last, fate.after, w.now);
    }
  }

  lemma PutCoversAll(w: World, v: World, e: Entry, h: Happening)
    requires QueueOk(w.queue) && AllCovered(w) && Puts(w, v, e, h)
    ensures QueueOk(v.queue) && AllCovered(v)
  {
    PutKeepsQueue(w.queue, e);
    forall t ensures Covered(v.queue, t, FateOf(v.log, t), v.now) {
      PutCovers(w, v, e, h, t);
    }
  }

  lemma AdmitKeeps(w: World, token: Token, digest: Digest, id: string)
    requires Inv(w) && Answering(w, token, digest) == Admitted
    ensures Inv(Admit(w, token, digest, id))
  {
    var p := w.(queue := Pruned(w.queue, w.now));
    PruneKeeps(w);
    var v := Admit(w, token, digest, id);
    var h := Open(token, digest, id, w.now);
    PutCoversAll(p, v, Entry(token, digest, id, InFlight, Expiry(w.now)), h);
    CurrentAppend(w.log, h);
    FateAppend(w.log, h, token);
    AbsentIsReleased(p, token);
    assert (w.log + [h])[..|w.log|] == w.log;
    ProperAppend(w.log, h);
  }

  lemma OutcomeKeeps(w: World, code: Code)
    requires Inv(w) && w.op.Some? && !Stale(w)
    ensures Inv(StoreOutcome(w, code)) && StoreOutcome(w, code).op == w.op
  {
    var p := w.(queue := Pruned(w.queue, w.now));
    PruneKeeps(w);
    var v := StoreOutcome(w, code);
    var o := w.op.value;
    var h := Store(o.token, w.now, !Has(p.queue, o.token));
    PutCoversAll(p, v, Entry(o.token, o.digest, o.id, code, Expiry(w.now)), h);
    CurrentAppend(w.log, h);
    FateAppend(w.log, h, o.token);
    ProperAppend(w.log, h);
  }

  /** Ending the operation after its outcome was stored, or in another epoch. */
  lemma FinishKeeps(w: World, code: Code)
    requires Inv(w) && w.op.Some?
    ensures Inv(Finish(w, code))
  {
    var v := Finish(w, code);
    var h := End(w.op.value.token, code);
    CurrentAppend(w.log, h);
    assert (w.log + [h])[..|w.log|] == w.log;
    ProperAppend(w.log, h);
    forall t ensures Covered(v.queue, t, FateOf(v.log, t), v.now) {
      FateAppend(w.log, h, t);
      assert Covered(w.queue, t, FateOf(w.log, t), w.now);
    }
  }

  lemma DropCovers(p: seq<Entry>, other: Token, t: Token, fate: Fate, now: int)
    requires QueueOk(p) && Covered(p, t, fate, now) && t != other
    ensures Covered(Dropped(p, other), t, fate, now)
  {
    DropKeepsQueue(p, other);
    NotHeld(p, t);
    NotHeld(Dropped(p, other), t);
    if fate.Held? && Retained(p, t, fate.digest, fate.last, fate.after) {
      DropOtherRetains(p, other, t, fate.digest, fate.last, fate.after);
    }
  }

  /** Ending the operation with its token removed: only after a definite failure or in a
      later epoch, when the log no longer holds the token either. */
  lemma RemoveKeeps(w: World, code: Code)
    requires Inv(w) && w.op.Some? && (Stale(w) || code == Definite)
    ensures Inv(Finish(w.(queue := Removed(w.queue, w.op.value.token, w.now)), code))
  {
    var token := w.op.value.token;
    var p := w.(queue := Pruned(w.queue, w.now));
    PruneKeeps(w);
    var v := Finish(w.(queue := Removed(w.queue, token, w.now)), code);
    var h := End(token, code);
    DropKeepsQueue(p.queue, token);
    CurrentAppend(w.log, h);
    assert (w.log + [h])[..|w.log|] == w.log;
    ProperAppend(w.log, h);
    forall t ensures Covered(v.queue, t, FateOf(v.log, t), v.now) {
      FateAppend(w.log, h, t);
      assert Covered(p.queue, t, FateOf(p.log, t), p.now);
      if t != token { DropCovers(p.queue, token, t, FateOf(w.log, t), w.now); }
    }
  }

  lemma ErrorKeeps(w: World, code: Code)
    requires Inv(w) && w.op.Some? && (code == Definite || code == OutcomeUnknown)
    ensures Inv(CompleteError(w, code))
  {
    if !Stale(w) && code == OutcomeUnknown {
      OutcomeKeeps(w, code);
      FinishKeeps(StoreOutcome(w, code), code);
    } else {
      RemoveKeeps(w, code);
    }
  }

  lemma DispatchKeeps(w: World)
    requires Inv(w) && w.op.Some? && !w.op.value.dispatched && !Stale(w)
    ensures Inv(Step(w, Created))
  {
    var v := Step(w, Created);
    var h := Dispatch(w.op.value.token, w.op.value.digest);
    CurrentAppend(w.log, h);
    assert (w.log + [h])[..|w.log|] == w.log;
    ProperAppend(w.log, h);
    forall t ensures FateOf(v.log, t) == FateOf(w.log, t) {
      FateAppend(w.log, h, t);
    }
    forall t ensures Covered(v.queue, t, FateOf(v.log, t), v.now) {
      assert Covered(w.queue, t, FateOf(w.log, t), w.now);
    }
  }

  lemma EpochKeeps(w: World)
    requires Inv(w)
    ensures Inv(Step(w, Reconcile))
  {
    var v := Step(w, Reconcile);
    CurrentAppend(w.log, NewEpoch);
    ProperAppend(w.log, NewEpoch);
    forall t ensures FateOf(v.log, t).Clear? {
      FateAppend(w.log, NewEpoch, t);
    }
  }

  lemma StepKeeps(w: World, e: Event)
    requires Inv(w) && Enabled(w, e)
    ensures Inv(Step(w, e))
  {
    match e
    case Wait(time) => WaitKeeps(w, time);
    case Ask(token, digest, id) =>
      if Answering(w, token, digest) == Admitted { AdmitKeeps(w, token, digest, id); } else { PruneKeeps(w); }
    case CreateFails(code) => ErrorKeeps(w, code);
    case Created => if Stale(w) { ErrorKeeps(w, Definite); } else { DispatchKeeps(w); }
    case SendFails(code) => ErrorKeeps(w, code);
    case SendSucceeds =>
      if Stale(w) {
        FinishKeeps(w, Sent);
      } else {
        OutcomeKeeps(w, Sent);
        FinishKeeps(StoreOutcome(w, Sent), Sent);
      }
    case Reconcile => EpochKeeps(w);
  }

  lemma {:induction false} HistoryKeeps(states: seq<World>, events: seq<Event>, k: nat)
    requires History(states, events) && k < |states|
    ensures Inv(states[k])
  {
    if k > 0 {
      HistoryKeeps(states, events, k - 1);
      StepKeeps(states[k - 1], events[k - 1]);
    }
  }

  // ----- when the same token is dispatched twice ---------------------------------------------------------

  /** The operation dispatched before position n ends, and nothing opens or ends before. */
  lemma {:induction false} FirstEnd(log: seq<Happening>, token: Token, n: nat, j: nat) returns (e: nat)
    requires AllProper(log) && n <= j <= |log|
    requires CurrentOf(log[..n]) == Running(token, true) && CurrentOf(log[..j]) == Running(token, false)
    ensures n <= e < j && log[e].End? && log[e].token == token
    ensures forall x | n <= x < e :: !log[x].Open? && !log[x].End?
    decreases j - n
  {
    assert Proper(log, n);
    assert log[..n + 1][..n] == log[..n];
    if log[n].End? {
      e := n;
    } else {
      e := FirstEnd(log, token, n + 1, j);
    }
  }

  /** The first request under the token from position n on. */
  lemma {:induction false} FirstReopening(log: seq<Happening>, token: Token, n: nat, j: nat) returns (m: nat)
    requires n <= j <= |log|
    requires CurrentOf(log[..n]) != Running(token, false) && CurrentOf(log[..j]) == Running(token, false)
    ensures n <= m < j && log[m].Open? && log[m].token == token
    ensures forall x | n <= x < m && log[x].Open? :: log[x].token != token
    decreases j - n
  {
    assert log[..n + 1][..n] == log[..n];
    if log[n].Open? && log[n].token == token {
      m := n;
    } else {
      m := FirstReopening(log, token, n + 1, j);
    }
  }

  /** Without a new request under the token no operation under it is in progress. */
  lemma {:induction false} NotRunningUntil(log: seq<Happening>, token: Token, n: nat, k: nat)
    requires AllProper(log) && n <= k <= |log| && !RunningOf(log[..n], token)
    requires forall x | n <= x < k && log[x].Open? :: log[x].token != token
    ensures !RunningOf(log[..k], token)
  {
    if n < k {
      NotRunningUntil(log, token, n, k - 1);
      assert Proper(log, k - 1);
      assert log[..k][..k - 1] == log[..k - 1];
    }
  }

  /** A token that was held and is free now was ended by a definite failure in between. */
  lemma {:induction false} FreedBetween(log: seq<Happening>, token: Token, i: nat, m: nat) returns (k: nat)
    requires i <= m <= |log| && FateOf(log[..i], token).Held? && FateOf(log[..m], token).Clear?
    requires forall x | i <= x < m :: !log[x].NewEpoch?
    ensures i <= k < m && log[k] == End(token, Definite)
  {
    if m > i {
      assert log[..m][..m - 1] == log[..m - 1];
      if FateOf(log[..m - 1], token).Clear? {
        k := FreedBetween(log, token, i, m - 1);
      } else {
        k := m - 1;
      }
    }
  }

  lemma DispatchedIsHeld(log: seq<Happening>, i: nat)
    requires i < |log| && log[i].Dispatch?
    ensures FateOf(log[..i + 1], log[i].token) == FateOf(log[..i], log[i].token)
  {
    assert log[..i + 1][..i] == log[..i];
  }

  /** A token held when its operation was dispatched at i, and free when it is opened again at
      m, was freed by the end of that very operation. */
  lemma FreedByOwnEnd(log: seq<Happening>, token: Token, i: nat, e: nat, m: nat)
    requires AllProper(log) && i < e < m <= |log| && FateOf(log[..i + 1], token).Held? && FateOf(log[..m], token).Clear?
    requires forall x | i <= x < m :: !log[x].NewEpoch?
    requires log[e].End? && log[e].token == token && forall x | i < x < e :: !log[x].End?
    requires forall x | e < x < m && log[x].Open? :: log[x].token != token
    ensures log[e].code == Definite
  {
    var k := FreedBetween(log, token, i + 1, m);
    assert Proper(log, k);
    assert log[..e + 1][..e] == log[..e];
    if k > e { NotRunningUntil(log, token, e + 1, k); }
  }

  /** The same token is dispatched at i and again at j in one messaging epoch. Then the first
      operation ended at e with some code, the token was first opened again at m, and either
      that code was a definite failure, or at that moment 300 s had passed since the token was
      last stored, or at least 64 other tokens had been inserted after it. */
  lemma SecondDispatch(states: seq<World>, events: seq<Event>, k: nat, i: nat, j: nat) returns (e: nat, m: nat)
    requires History(states, events) && k < |states|
    requires var log := states[k].log;
             && i < j < |log| && log[i].Dispatch? && log[j].Dispatch? && log[i].token == log[j].token
             && (forall x | i <= x < j :: !log[x].NewEpoch?)
    ensures var log := states[k].log;
            var token := log[i].token;
            && i < e < m < j
            && log[e].End? && log[e].token == token && (forall x | i < x < e :: !log[x].Open? && !log[x].End?)
            && log[m].Open? && log[m].token == token && (forall x | e < x < m && log[x].Open? :: log[x].token != token)
            && var fate := FateOf(log[..m], token);
               log[e].code == Definite
               || (fate.Held? && (Expired(Expiry(fate.last), log[m].at) || |fate.after| >= DEDUPE_MAX))
  {
    var log := states[k].log;
    var token := log[i].token;
    HistoryKeeps(states, events, k);
    assert Proper(log, i) && Proper(log, j);
    assert log[..i + 1][..i] == log[..i];
    e := FirstEnd(log, token, i + 1, j);
    assert log[..e + 1][..e] == log[..e];
    m := FirstReopening(log, token, e + 1, j);
    assert Proper(log, m);
    DispatchedIsHeld(log, i);
    if FateOf(log[..m], token).Clear? { FreedByOwnEnd(log, token, i, e, m); }
  }

  predicate Stores(h: Happening, token: Token) {
    (h.Open? || h.Store?) && h.token == token
  }

  predicate Inserts(h: Happening, token: Token) {
    (h.Open? || (h.Store? && h.inserted)) && h.token == token
  }

  /** What it means that the log holds a token: `stored` is where it was stored last, at time
      `last`; `inserted` where it last entered the queue; and `after` are exactly the other
      tokens inserted since. */
  lemma {:induction false} HeldMeans(log: seq<Happening>, token: Token) returns (inserted: nat, stored: nat)
    requires FateOf(log, token).Held?
    ensures inserted <= stored < |log| && Inserts(log[inserted], token)
    ensures Stores(log[stored], token) && log[stored].at == FateOf(log, token).last
    ensures forall k | stored < k < |log| :: !Stores(log[k], token)
    ensures forall k, x | inserted < k < |log| && Inserts(log[k], x) :: x in FateOf(log, token).after
    ensures forall x | x in FateOf(log, token).after ::
              x != token && exists k | inserted < k < |log| :: Inserts(log[k], x)
  {
    var n := |log| - 1;
    var h := log[n];
    if Inserts(h, token) {
      inserted, stored := n, n;
    } else {
      inserted, stored := HeldMeans(log[..n], token);
      if Stores(h, token) { stored := n; }
      forall x | x in FateOf(log, token).after
        ensures x != token && exists k | inserted < k < |log| :: Inserts(log[k], x)
      {
        if x in FateOf(log[..n], token).after {
          var k :| inserted < k < n && Inserts(log[..n][k], x);
          assert Inserts(log[k], x);
        } else {
          assert Inserts(log[n], x);
        }
      }
    }
  }

  /** A request under a token that is still held, or while any send operation is in flight
      (even one that outlived its own entry), opens and dispatches nothing; different content
      under a held token is answered with a conflict. */
  lemma RetainedNeverReopens(states: seq<World>, events: seq<Event>, k: nat, token: Token, digest: Digest, id: string)
    requires History(states, events) && k < |states|
    ensures var w := states[k];
            var fate := FateOf(w.log, token);
            && (w.op.Some? || !Released(fate, w.now) ==> Step(w, Ask(token, digest, id)).log == w.log)
            && (!Released(fate, w.now) && digest != fate.digest ==> Answering(w, token, digest) == Conflict)
  {
    var w := states[k];
    HistoryKeeps(states, events, k);
    var fate := FateOf(w.log, token);
    if !Released(fate, w.now) {
      assert Covered(w.queue, token, fate, w.now);
      PruneRetains(w.queue, token, fate.digest, fate.last, fate.after, w.now);
      RetainedIsHeld(Pruned(w.queue, w.now), token, fate.digest, fate.last, fate.after);
    }
  }
}
