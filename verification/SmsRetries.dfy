/** What a retry is told (ubus_glib.c): the queue of tokens answers with the message ID and the
    outcome of the very operation that the token opened, over every run of module SmsSend. */
module SmsRetries {
  import opened Common
  import opened SmsDedupe
  import opened SmsSend

  // ----- the queue says what the log says ------------------------------------------------------

  /** The entry agrees with what the log says of its token. */
  ghost predicate EntryTold(e: Entry, fate: Fate) {
    && fate.Held? && e.digest == fate.digest && e.id == fate.id && e.code == fate.code
    && e.expiresAt == Expiry(fate.last)
  }

  ghost predicate QueueTold(q: seq<Entry>, log: seq<Happening>) {
    forall e | e in q :: EntryTold(e, FateOf(log, e.token))
  }

  /** A token is in flight exactly while its operation runs in its own epoch. */
  ghost predicate FlightTold(w: World) {
    && (forall t :: FateOf(w.log, t).Held? && FateOf(w.log, t).code == InFlight ==>
          w.op.Some? && w.op.value.token == t && !Stale(w))
    && (w.op.Some? && !Stale(w) ==>
          var fate := FateOf(w.log, w.op.value.token); fate.Held? && fate.code == InFlight && fate.id == w.op.value.id)
  }

  /** No operation ends in flight. */
  ghost predicate EndsOk(log: seq<Happening>) {
    forall x | 0 <= x < |log| && log[x].End? :: log[x].code != InFlight
  }

  ghost predicate Told(w: World) {
    QueueTold(w.queue, w.log) && FlightTold(w) && EndsOk(w.log)
  }

  lemma PutFrom(p: seq<Entry>, e: Entry, x: Entry)
    requires QueueOk(p) && x in Put(p, e)
    ensures x == e || (x in p && x.token != e.token)
  {
    NotHeld(p, e.token);
    EvictedIsSuffix(p);
    var q := Put(p, e);
    var k :| 0 <= k < |q| && q[k] == x;
    if Has(p, e.token) {
      var i := Position(p, e.token);
      if k != i { assert p[k].token != p[i].token by { assert i < k || k < i; } }
    }
  }

  lemma DroppedFrom(p: seq<Entry>, token: Token, x: Entry)
    requires QueueOk(p) && x in Dropped(p, token)
    ensures x in p && x.token != token
  {
    NotHeld(p, token);
    var q, i := Dropped(p, token), Position(p, token);
    var k :| 0 <= k < |q| && q[k] == x;
    if i < |p| {
      var j := if k < i then k else k + 1;
      assert x == p[j] && j != i;
      assert i < j || j < i;
    }
  }

  lemma PruneTells(q: seq<Entry>, now: int, log: seq<Happening>)
    requires QueueTold(q, log)
    ensures QueueTold(Pruned(q, now), log)
  {
    PrunedKeepsSome(q, now);
  }

  lemma OpenTells(w: World, token: Token, digest: Digest, id: string)
    requires Inv(w) && Told(w) && Answering(w, token, digest) == Admitted
    ensures Told(Admit(w, token, digest, id))
  {
    var p := Pruned(w.queue, w.now);
    var e := Entry(token, digest, id, InFlight, Expiry(w.now));
    var h := Open(token, digest, id, w.now);
    PrunedKeepsSome(w.queue, w.now);
    forall t ensures FateOf(w.log + [h], t) == NextFate(FateOf(w.log, t), t, h) { FateAppend(w.log, h, t); }
    forall x | x in Put(p, e) ensures EntryTold(x, FateOf(w.log + [h], x.token)) { PutFrom(p, e, x); }
  }

  /** The outcome is stored and the operation ends with it. */
  lemma OutcomeTells(w: World, code: Code)
    requires Inv(w) && Told(w) && w.op.Some? && !Stale(w) && (code == Sent || code == OutcomeUnknown)
    ensures Told(Finish(StoreOutcome(w, code), code))
  {
    var o := w.op.value;
    var p := Pruned(w.queue, w.now);
    var e := Entry(o.token, o.digest, o.id, code, Expiry(w.now));
    var s, h := Store(o.token, w.now, !Has(p, o.token)), End(o.token, code);
    var v := Finish(StoreOutcome(w, code), code);
    PrunedKeepsSome(w.queue, w.now);
    forall t ensures FateOf(v.log, t) == NextFate(NextFate(FateOf(w.log, t), t, s), t, h) {
      FateAppend(w.log, s, t);
      FateAppend(w.log + [s], h, t);
    }
    forall x | x in v.queue ensures EntryTold(x, FateOf(v.log, x.token)) { PutFrom(p, e, x); }
  }

  /** The operation ends without an outcome to keep. */
  lemma EndTells(w: World, q: seq<Entry>, code: Code)
    requires Inv(w) && Told(w) && w.op.Some? && (Stale(w) || code == Definite) && code != InFlight
    requires forall x | x in q :: x in w.queue && (code == Definite ==> x.token != w.op.value.token)
    ensures Told(Finish(w.(queue := q), code))
  {
    var token := w.op.value.token;
    var h := End(token, code);
    forall t ensures FateOf(w.log + [h], t) == NextFate(FateOf(w.log, t), t, h) { FateAppend(w.log, h, t); }
  }

  lemma ErrorTells(w: World, code: Code)
    requires Inv(w) && Told(w) && w.op.Some? && (code == Definite || code == OutcomeUnknown)
    ensures Told(CompleteError(w, code))
  {
    if !Stale(w) && code == OutcomeUnknown {
      OutcomeTells(w, code);
    } else {
      var token := w.op.value.token;
      PrunedKeepsSome(w.queue, w.now);
      forall x | x in Removed(w.queue, token, w.now) ensures x in w.queue && x.token != token {
        DroppedFrom(Pruned(w.queue, w.now), token, x);
      }
      EndTells(w, Removed(w.queue, token, w.now), code);
    }
  }

  lemma CreatedTells(w: World)
    requires Inv(w) && Told(w) && Enabled(w, Created)
    ensures Told(Step(w, Created))
  {
    if Stale(w) {
      ErrorTells(w, Definite);
    } else {
      var h := Dispatch(w.op.value.token, w.op.value.digest);
      forall t ensures FateOf(w.log + [h], t) == FateOf(w.log, t) { FateAppend(w.log, h, t); }
    }
  }

  lemma EpochTells(w: World)
    requires Inv(w) && Told(w)
    ensures Told(Step(w, Reconcile))
  {
    forall t ensures FateOf(w.log + [NewEpoch], t).Clear? { FateAppend(w.log, NewEpoch, t); }
  }

  /** Every step keeps queue and log of one mind. */
  lemma StepTells(w: World, e: Event)
    requires Inv(w) && Told(w) && Enabled(w, e)
    ensures Told(Step(w, e))
  {
    match e
    case Wait(_) =>
    case Ask(token, digest, id) =>
      if Answering(w, token, digest) == Admitted { OpenTells(w, token, digest, id); } else { PruneTells(w.queue, w.now, w.log); }
    case CreateFails(code) => ErrorTells(w, code);
    case Created => CreatedTells(w);
    case SendFails(code) => ErrorTells(w, code);
    case SendSucceeds => if Stale(w) { EndTells(w, w.queue, Sent); } else { OutcomeTells(w, Sent); }
    case Reconcile => EpochTells(w);
  }

  lemma {:induction false} HistoryTells(states: seq<World>, events: seq<Event>, k: nat)
    requires History(states, events) && k < |states|
    ensures Inv(states[k]) && Told(states[k])
  {
    HistoryKeeps(states, events, k);
    if k > 0 {
      HistoryTells(states, events, k - 1);
      StepTells(states[k - 1], events[k - 1]);
    }
  }

  // ----- what the code of a token is ---------------------------------------------------------------

  ghost predicate Opens(h: Happening, token: Token) {
    h.Open? && h.token == token
  }

  ghost predicate Ends(h: Happening, token: Token) {
    h.End? && h.token == token
  }

  /** Once ended, an operation does not end again. */
  lemma EndsOnce(log: seq<Happening>, token: Token, x: nat, n: nat)
    requires AllProper(log) && x < n < |log| && Ends(log[x], token) && forall y | x < y < n :: !Opens(log[y], token)
    ensures !Ends(log[n], token)
  {
    assert log[..x + 1][..x] == log[..x];
    NotRunningUntil(log, token, x + 1, n);
    assert Proper(log, n);
  }

  /** Opened at `o` for the message it names, in the current epoch and not since; in flight
      while that operation has not ended, and otherwise the code it ended with. */
  ghost predicate CodeFrom(log: seq<Happening>, n: nat, token: Token, fate: Fate, o: nat)
    requires n <= |log| && fate.Held?
  {
    && o < n && log[o].Open? && log[o].token == token && log[o].digest == fate.digest && log[o].id == fate.id
    && (forall x | o < x < n :: !Opens(log[x], token) && !log[x].NewEpoch?)
    && (fate.code == InFlight <==> forall x | o < x < n :: !Ends(log[x], token))
    && (forall x | o < x < n && Ends(log[x], token) :: log[x].code == fate.code && fate.code != Definite)
  }

  lemma {:induction false} CodeMeans(log: seq<Happening>, n: nat, token: Token) returns (o: nat)
    requires AllProper(log) && n <= |log| && FateOf(log[..n], token).Held?
    requires EndsOk(log)
    ensures CodeFrom(log, n, token, FateOf(log[..n], token), o)
  {
    assert log[..n][..n - 1] == log[..n - 1];
    var h := log[n - 1];
    if Opens(h, token) {
      o := n - 1;
    } else {
      o := CodeMeans(log, n - 1, token);
      if Ends(h, token) {
        forall x | o < x < n - 1 ensures !Ends(log[x], token) {
          if Ends(log[x], token) { EndsOnce(log, token, x, n - 1); }
        }
      }
    }
  }

  // ----- what a retry is told ------------------------------------------------------------------------

  /** A request under a token that is held and not released is told the ID of the message and
      the code of the operation that the token opened: in flight exactly while that operation
      runs in its epoch, and otherwise the code with which it ended. Other content is a
      conflict. */
  lemma RetryIsTold(states: seq<World>, events: seq<Event>, k: nat, token: Token, digest: Digest) returns (o: nat)
    requires History(states, events) && k < |states|
    requires !Released(FateOf(states[k].log, token), states[k].now)
    ensures var w := states[k];
            var fate := FateOf(w.log, token);
            && CodeFrom(w.log, |w.log|, token, fate, o)
            && Answering(w, token, digest) == (if digest == fate.digest then Cached(fate.code, fate.id) else Conflict)
            && (fate.code == InFlight <==> w.op.Some? && w.op.value.token == token && !Stale(w))
  {
    var w := states[k];
    var fate := FateOf(w.log, token);
    HistoryTells(states, events, k);
    assert w.log[..|w.log|] == w.log;
    o := CodeMeans(w.log, |w.log|, token);
    assert Covered(w.queue, token, fate, w.now);
    PruneRetains(w.queue, token, fate.digest, fate.last, fate.after, w.now);
    RetainedIsHeld(Pruned(w.queue, w.now), token, fate.digest, fate.last, fate.after);
    PruneTells(w.queue, w.now, w.log);
  }

  /** Whatever a request is told from the queue is the ID and the code of the operation that
      this token opened with this content, less than 300 s after its last store. */
  lemma ToldIsTrue(states: seq<World>, events: seq<Event>, k: nat, token: Token, digest: Digest) returns (o: nat)
    requires History(states, events) && k < |states| && Answering(states[k], token, digest).Cached?
    ensures var w := states[k];
            var fate := FateOf(w.log, token);
            && fate.Held? && CodeFrom(w.log, |w.log|, token, fate, o) && !Expired(Expiry(fate.last), w.now)
            && digest == fate.digest && Answering(w, token, digest) == Cached(fate.code, fate.id)
  {
    var w := states[k];
    HistoryTells(states, events, k);
    PruneTells(w.queue, w.now, w.log);
    PrunedKeepsSome(w.queue, w.now);
    assert w.log[..|w.log|] == w.log;
    o := CodeMeans(w.log, |w.log|, token);
  }

  lemma HasIsIn(q: seq<Entry>, token: Token)
    ensures Has(q, token) ==> exists e :: e in q && e.token == token
  {
    if Has(q, token) { assert q[Position(q, token)] in q; }
  }

  /** A request under a token that is free, or whose 300 s are over, is admitted unless a send is
      in flight; then it is told so. */
  lemma FreeIsAdmitted(states: seq<World>, events: seq<Event>, k: nat, token: Token, digest: Digest)
    requires History(states, events) && k < |states|
    requires var fate := FateOf(states[k].log, token); fate.Clear? || Expired(Expiry(fate.last), states[k].now)
    ensures Answering(states[k], token, digest) == if states[k].op.Some? then Busy else Admitted
  {
    var w := states[k];
    HistoryTells(states, events, k);
    PrunedKeepsSome(w.queue, w.now);
    var q := Pruned(w.queue, w.now);
    HasIsIn(q, token);
  }

  // ----- from the outcome of an operation to the answer -------------------------------------------------

  /** How the event ends the operation in progress, if it does. */
  function OutcomeOf(w: World, e: Event): Option<Code>
    requires Enabled(w, e) && w.op.Some?
  {
    match e
    case CreateFails(code) => Some(code)
    case Created => if Stale(w) then Some(Definite) else None
    case SendFails(code) => Some(code)
    case SendSucceeds => Some(Sent)
    case _ => None
  }

  /** The operation ends exactly with such an event, and the log says how. */
  lemma EndsAsItHappened(w: World, e: Event)
    requires Enabled(w, e) && w.op.Some?
    ensures Step(w, e).op.None? <==> OutcomeOf(w, e).Some?
    ensures OutcomeOf(w, e).Some? ==>
              var log := Step(w, e).log;
              |log| > |w.log| && log[|log| - 1] == End(w.op.value.token, OutcomeOf(w, e).value)
  {
  }

  /** After its end the code of a token changes only by a new request or a new epoch. */
  lemma {:induction false} CodeStays(log: seq<Happening>, token: Token, n: nat, m: nat)
    requires AllProper(log) && n <= m <= |log| && !RunningOf(log[..n], token) && FateOf(log[..n], token).Held?
    requires forall x | n <= x < m :: !Opens(log[x], token) && !log[x].NewEpoch?
    ensures var was, now := FateOf(log[..n], token), FateOf(log[..m], token);
            now.Held? && now.code == was.code && now.id == was.id && now.digest == was.digest
  {
    if n < m {
      CodeStays(log, token, n, m - 1);
      assert log[..m][..m - 1] == log[..m - 1];
      NotRunningUntil(log, token, n, m - 1);
      assert Proper(log, m - 1);
    }
  }

  lemma {:induction false} LogGrows(states: seq<World>, events: seq<Event>, i: nat, k: nat)
    requires History(states, events) && i <= k < |states|
    ensures states[i].log <= states[k].log
  {
    if i < k {
      LogGrows(states, events, i, k - 1);
      LogGrewAt(states, events, k - 1);
    }
  }

  lemma LogGrewAt(states: seq<World>, events: seq<Event>, k: nat)
    requires History(states, events) && k < |events|
    ensures states[k].log <= states[k + 1].log
  {
    LogGrew(states[k], events[k]);
  }

  lemma LogGrew(w: World, e: Event)
    requires Enabled(w, e)
    ensures w.log <= Step(w, e).log
  {
  }

  /** An operation ended with an outcome that is kept: sent, or unknown. */
  lemma EndIsHeld(w: World, e: Event)
    requires Inv(w) && Told(w) && Enabled(w, e) && w.op.Some? && !Stale(w)
    requires OutcomeOf(w, e) == Some(Sent) || OutcomeOf(w, e) == Some(OutcomeUnknown)
    ensures var o, fate := w.op.value, FateOf(Step(w, e).log, w.op.value.token);
            && fate.Held? && fate.code == OutcomeOf(w, e).value && fate.id == o.id && fate.digest == o.digest
            && CurrentOf(Step(w, e).log).Idle?
  {
    var o, code := w.op.value, OutcomeOf(w, e).value;
    var s := Store(o.token, w.now, !Has(Pruned(w.queue, w.now), o.token));
    FateAppend(w.log, s, o.token);
    FateAppend(w.log + [s], End(o.token, code), o.token);
    CurrentAppend(w.log + [s], End(o.token, code));
    assert Step(w, e) == Finish(StoreOutcome(w, code), code);
  }

  /** An operation that was sent, or whose outcome is unknown, in its own epoch: until the token
      is released, opened again or a new epoch starts, a request under it with the same content
      is told exactly that outcome and the ID of the message. */
  lemma OutcomeIsTold(states: seq<World>, events: seq<Event>, i: nat, k: nat)
    requires History(states, events) && i < k < |states| && states[i].op.Some? && !Stale(states[i])
    requires OutcomeOf(states[i], events[i]) == Some(Sent) || OutcomeOf(states[i], events[i]) == Some(OutcomeUnknown)
    requires var o, log := states[i].op.value, states[k].log;
             && !Released(FateOf(log, o.token), states[k].now)
             && forall x | |states[i + 1].log| <= x < |log| :: !Opens(log[x], o.token) && !log[x].NewEpoch?
    ensures var o := states[i].op.value;
            Answering(states[k], o.token, o.digest) == Cached(OutcomeOf(states[i], events[i]).value, o.id)
  {
    var o, log, n := states[i].op.value, states[k].log, |states[i + 1].log|;
    HistoryTells(states, events, i);
    EndIsHeld(states[i], events[i]);
    LogGrows(states, events, i + 1, k);
    HistoryTells(states, events, k);
    assert log[..n] == states[i + 1].log && log[..|log|] == log;
    CodeStays(log, o.token, n, |log|);
    var start := RetryIsTold(states, events, k, o.token, o.digest);
  }
}
