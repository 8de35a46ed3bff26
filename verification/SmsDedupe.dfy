/** The retry-token queue of a modem (ubus_glib.c, sms_dedupe_policy.c): at most 64 tokens,
    each kept for 300 seconds after it was last stored, oldest insertion first. */
module SmsDedupe {
  import opened Common

  const DEDUPE_MAX: nat := 64
  const WINDOW: int := 300 * 1_000_000
  const INT64_MAX: int := 0x7FFF_FFFF_FFFF_FFFF

  type Token = string
  type Digest = string

  datatype Code = InFlight | Sent | OutcomeUnknown | Definite

  /** `id` is the ID reserved for the message. */
  datatype Entry = Entry(token: Token, digest: Digest, id: string, code: Code, expiresAt: int)

  /** Saturating, so that the sum never leaves the 64-bit range. */
  function Expiry(now: int): int {
    if now < 0 then 0 else if now > INT64_MAX - WINDOW then INT64_MAX else now + WINDOW
  }

  predicate Expired(expiresAt: int, now: int) {
    expiresAt <= now
  }

  function EvictionsRequired(length: nat): nat {
    if length < DEDUPE_MAX then 0 else length - DEDUPE_MAX + 1
  }

  /** The window is exactly 300 s wherever the clock is not within 300 s of its end. */
  lemma ExpiryIsWindow(now: int, later: int)
    requires 0 <= now <= INT64_MAX - WINDOW
    ensures Expired(Expiry(now), later) <==> later - now >= WINDOW
    ensures 0 <= Expiry(now) <= INT64_MAX
  {
  }

  // ----- the queue as a value ------------------------------------------------------------------

  function Pruned(q: seq<Entry>, now: int): seq<Entry> {
    if q == [] then []
    else if Expired(q[0].expiresAt, now) then Pruned(q[1..], now)
    else [q[0]] + Pruned(q[1..], now)
  }

  function Position(q: seq<Entry>, token: Token): (i: nat)
    ensures i <= |q| && (i < |q| ==> q[i].token == token) && forall k | 0 <= k < i :: q[k].token != token
  {
    if q == [] || q[0].token == token then 0 else 1 + Position(q[1..], token)
  }

  predicate Has(q: seq<Entry>, token: Token) {
    Position(q, token) < |q|
  }

  function Evicted(q: seq<Entry>): seq<Entry> {
    if EvictionsRequired(|q|) > 0 then Evicted(q[1..]) else q
  }

  /** A token that has an entry keeps its place; a new one goes to the tail. */
  function Put(p: seq<Entry>, e: Entry): seq<Entry> {
    if Has(p, e.token) then p[Position(p, e.token) := e] else Evicted(p) + [e]
  }

  function Stored(q: seq<Entry>, e: Entry, now: int): seq<Entry> {
    Put(Pruned(q, now), e)
  }

  function Dropped(p: seq<Entry>, token: Token): seq<Entry> {
    var i := Position(p, token);
    if i < |p| then p[..i] + p[i + 1..] else p
  }

  function Removed(q: seq<Entry>, token: Token, now: int): seq<Entry> {
    Dropped(Pruned(q, now), token)
  }

  // ----- the queue in place -----------------------------------------------------------------------

  class DedupeQueue {
    var entries: seq<Entry>

    constructor ()
      ensures entries == []
    {
      entries := [];
    }

    method Prune(now: int)
      modifies this
      ensures entries == Pruned(old(entries), now)
    {
      var i := 0;
      while i < |entries|
        invariant i <= |entries|
        invariant entries[..i] + Pruned(entries[i..], now) == Pruned(old(entries), now)
        decreases |entries| - i
      {
        assert entries[i..][1..] == entries[i + 1..];
        if Expired(entries[i].expiresAt, now) {
          ghost var was := entries;
          entries := entries[..i] + entries[i + 1..];
          assert entries[..i] == was[..i] && entries[i..] == was[i + 1..];
        } else {
          assert entries[..i + 1] == entries[..i] + [entries[i]];
          i := i + 1;
        }
      }
      assert entries[..i] == entries;
    }

    method Find(token: Token, now: int) returns (i: nat)
      modifies this
      ensures entries == Pruned(old(entries), now)
      ensures i == Position(entries, token)
    {
      Prune(now);
      i := 0;
      while i < |entries| && entries[i].token != token
        invariant i <= |entries|
        invariant Position(entries, token) == i + Position(entries[i..], token)
      {
        assert entries[i..][1..] == entries[i + 1..];
        i := i + 1;
      }
    }

    method Remove(token: Token, now: int)
      modifies this
      ensures entries == Removed(old(entries), token, now)
    {
      var i := Find(token, now);
      if i < |entries| {
        entries := entries[..i] + entries[i + 1..];
      }
    }

    method Store(e: Entry, now: int)
      modifies this
      ensures entries == Stored(old(entries), e, now)
    {
      var i := Find(e.token, now);
      if i < |entries| {
        entries := entries[i := e];
        return;
      }
      while EvictionsRequired(|entries|) > 0
        invariant Evicted(entries) == Evicted(Pruned(old(entries), now))
        decreases |entries|
      {
        entries := entries[1..];
      }
      entries := entries + [e];
    }
  }

  // ----- tokens stay distinct and at most 64 -------------------------------------------------------

  ghost function Tokens(q: seq<Entry>): set<Token> {
    set k | 0 <= k < |q| :: q[k].token
  }

  ghost predicate QueueOk(q: seq<Entry>) {
    |q| <= DEDUPE_MAX && DistinctTokens(q)
  }

  ghost predicate DistinctTokens(q: seq<Entry>) {
    forall i, j | 0 <= i < j < |q| :: q[i].token != q[j].token
  }

  lemma {:induction false} PrunedKeepsSome(q: seq<Entry>, now: int)
    ensures |Pruned(q, now)| <= |q| && Tokens(Pruned(q, now)) <= Tokens(q)
    ensures DistinctTokens(q) ==> DistinctTokens(Pruned(q, now))
    ensures forall k | 0 <= k < |Pruned(q, now)| :: Pruned(q, now)[k] in q && !Expired(Pruned(q, now)[k].expiresAt, now)
  {
    if q != [] {
      PrunedKeepsSome(q[1..], now);
      var p := Pruned(q[1..], now);
      assert q == [q[0]] + q[1..];
      forall k | 0 <= k < |p| ensures p[k].token in Tokens(q[1..]) {
        assert p[k].token in Tokens(p);
      }
    }
  }

  lemma {:induction false} EvictedIsSuffix(q: seq<Entry>)
    ensures Evicted(q) == (if |q| < DEDUPE_MAX then q else q[|q| - DEDUPE_MAX + 1..])
  {
    if |q| >= DEDUPE_MAX { EvictedIsSuffix(q[1..]); }
  }

  lemma NotHeld(q: seq<Entry>, token: Token)
    ensures Has(q, token) <==> token in Tokens(q)
  {
    if Has(q, token) { assert q[Position(q, token)].token == token; }
  }

  lemma PutKeepsQueue(p: seq<Entry>, e: Entry)
    requires QueueOk(p)
    ensures QueueOk(Put(p, e)) && Tokens(Put(p, e)) <= Tokens(p) + {e.token}
  {
    EvictedIsSuffix(p);
    NotHeld(p, e.token);
    var s := Put(p, e);
    forall k | 0 <= k < |s| ensures s[k].token in Tokens(p) + {e.token} {
      if Has(p, e.token) { assert p[k].token in Tokens(p); }
    }
  }

  lemma DropKeepsQueue(p: seq<Entry>, token: Token)
    requires QueueOk(p)
    ensures QueueOk(Dropped(p, token)) && !Has(Dropped(p, token), token) && Tokens(Dropped(p, token)) <= Tokens(p)
  {
    NotHeld(Dropped(p, token), token);
  }

  // ----- how long a token is retained ------------------------------------------------------------------

  /** The entry of `token`, stored at `last`, is in the queue and everything behind it was
      inserted later: its tokens are in `after`. */
  ghost predicate Retained(q: seq<Entry>, token: Token, digest: Digest, last: int, after: set<Token>) {
    q != [] &&
    if q[0].token == token then q[0].digest == digest && q[0].expiresAt == Expiry(last) && Tokens(q[1..]) <= after
    else Retained(q[1..], token, digest, last, after)
  }

  lemma {:induction false} RetainedIsHeld(q: seq<Entry>, token: Token, digest: Digest, last: int, after: set<Token>)
    requires Retained(q, token, digest, last, after)
    ensures Has(q, token) && q[Position(q, token)].digest == digest
  {
    if q[0].token != token { RetainedIsHeld(q[1..], token, digest, last, after); }
  }

  lemma {:induction false} PruneRetains(q: seq<Entry>, token: Token, digest: Digest, last: int, after: set<Token>, now: int)
    requires Retained(q, token, digest, last, after) && now < Expiry(last)
    ensures Retained(Pruned(q, now), token, digest, last, after)
  {
    if q[0].token == token {
      PrunedKeepsSome(q[1..], now);
    } else {
      PruneRetains(q[1..], token, digest, last, after, now);
    }
  }

  lemma {:induction false} UpdateRetains(q: seq<Entry>, i: nat, e: Entry, token: Token, digest: Digest, last: int, after: set<Token>)
    requires Retained(q, token, digest, last, after) && i < |q| && q[i].token == e.token != token
    ensures Retained(q[i := e], token, digest, last, after)
  {
    if q[0].token == token {
      var t := q[i := e];
      forall k | 0 <= k < |t[1..]| ensures t[1..][k].token in after {
        assert t[1..][k].token == q[1..][k].token;
        assert q[1..][k].token in Tokens(q[1..]);
      }
    } else if i > 0 {
      UpdateRetains(q[1..], i - 1, e, token, digest, last, after);
      assert q[i := e][1..] == q[1..][i - 1 := e];
    } else {
      assert q[i := e][1..] == q[1..];
    }
  }

  lemma {:induction false} RefreshRetains(q: seq<Entry>, e: Entry, last: int, after: set<Token>, now: int)
    requires Retained(q, e.token, e.digest, last, after) && e.expiresAt == Expiry(now)
    ensures Has(q, e.token) && Retained(q[Position(q, e.token) := e], e.token, e.digest, now, after)
  {
    RetainedIsHeld(q, e.token, e.digest, last, after);
    if q[0].token == e.token {
      assert q[0 := e][1..] == q[1..];
    } else {
      RefreshRetains(q[1..], e, last, after, now);
      var i := Position(q[1..], e.token);
      assert q[i + 1 := e][1..] == q[1..][i := e];
    }
  }

  lemma {:induction false} AppendRetains(q: seq<Entry>, e: Entry, token: Token, digest: Digest, last: int, after: set<Token>)
    requires Retained(q, token, digest, last, after) && e.token != token
    ensures Retained(q + [e], token, digest, last, after + {e.token})
  {
    assert (q + [e])[1..] == q[1..] + [e];
    if q[0].token == token {
      var t := q[1..] + [e];
      forall k | 0 <= k < |t| ensures t[k].token in after + {e.token} {
        if k < |q[1..]| { assert q[1..][k].token in Tokens(q[1..]); }
      }
    } else {
      AppendRetains(q[1..], e, token, digest, last, after);
    }
  }

  lemma {:induction false} LastIsRetained(q: seq<Entry>, e: Entry, now: int)
    requires !Has(q, e.token) && e.expiresAt == Expiry(now)
    ensures Retained(q + [e], e.token, e.digest, now, {})
  {
    assert (q + [e])[1..] == if q == [] then [] else q[1..] + [e];
    if q != [] { LastIsRetained(q[1..], e, now); }
  }

  lemma {:induction false} TokensSize(q: seq<Entry>)
    requires DistinctTokens(q)
    ensures |Tokens(q)| == |q|
  {
    if q != [] {
      var last := |q| - 1;
      TokensSize(q[..last]);
      assert Tokens(q) == Tokens(q[..last]) + {q[last].token};
    }
  }

  /** Only the head is evicted, and behind a head of a full queue stand 63 later tokens. */
  lemma EvictRetains(q: seq<Entry>, newcomer: Token, token: Token, digest: Digest, last: int, after: set<Token>)
    requires QueueOk(q) && Retained(q, token, digest, last, after) && !Has(q, newcomer)
    ensures |after + {newcomer}| >= DEDUPE_MAX || Retained(Evicted(q), token, digest, last, after)
  {
    EvictedIsSuffix(q);
    if |q| == DEDUPE_MAX && q[0].token == token {
      NotHeld(q, newcomer);
      TokensSize(q[1..]);
      forall k | 0 <= k < |q[1..]| ensures q[1..][k].token != newcomer {
        assert q[k + 1].token in Tokens(q);
      }
      SubsetSize(Tokens(q[1..]) + {newcomer}, after + {newcomer});
    }
  }

  /** Storing another token keeps an entry unless 64 tokens came after it. */
  lemma PutOtherRetains(p: seq<Entry>, e: Entry, token: Token, digest: Digest, last: int, after: set<Token>)
    requires QueueOk(p) && Retained(p, token, digest, last, after) && e.token != token
    ensures var later := if Has(p, e.token) then after else after + {e.token};
            |later| >= DEDUPE_MAX || Retained(Put(p, e), token, digest, last, later)
  {
    if Has(p, e.token) {
      UpdateRetains(p, Position(p, e.token), e, token, digest, last, after);
    } else {
      EvictRetains(p, e.token, token, digest, last, after);
      if Retained(Evicted(p), token, digest, last, after) {
        AppendRetains(Evicted(p), e, token, digest, last, after);
      }
    }
  }

  /** Storing a token that has no entry retains it from now on. */
  lemma PutSelfRetains(p: seq<Entry>, e: Entry, now: int)
    requires e.expiresAt == Expiry(now) && !Has(p, e.token)
    ensures Retained(Put(p, e), e.token, e.digest, now, {})
  {
    EvictedIsSuffix(p);
    NotHeld(p, e.token);
    NotHeld(Evicted(p), e.token);
    LastIsRetained(Evicted(p), e, now);
  }

  /** A retained entry that survives pruning has not reached its expiry. */
  lemma {:induction false} SurvivorIsTimely(q: seq<Entry>, token: Token, digest: Digest, last: int, after: set<Token>, now: int)
    requires Retained(q, token, digest, last, after) && DistinctTokens(q) && Has(Pruned(q, now), token)
    ensures now < Expiry(last)
  {
    NotHeld(Pruned(q, now), token);
    PrunedKeepsSome(q[1..], now);
    if q[0].token == token {
      assert forall k | 0 <= k < |q[1..]| :: q[1..][k].token == q[k + 1].token;
    } else {
      NotHeld(Pruned(q[1..], now), token);
      var p := Pruned(q, now);
      var k := Position(p, token);
      if p != Pruned(q[1..], now) { assert p[k] == Pruned(q[1..], now)[k - 1]; }
      SurvivorIsTimely(q[1..], token, digest, last, after, now);
    }
  }

  lemma {:induction false} RemoveOtherRetains(p: seq<Entry>, i: nat, token: Token, digest: Digest, last: int, after: set<Token>)
    requires Retained(p, token, digest, last, after) && i < |p| && p[i].token != token
    ensures Retained(p[..i] + p[i + 1..], token, digest, last, after)
  {
    var t := p[..i] + p[i + 1..];
    if p[0].token == token {
      forall k | 0 <= k < |t[1..]| ensures t[1..][k].token in after {
        assert t[1..][k] == if k + 1 < i then p[1..][k] else p[1..][k + 1];
        assert t[1..][k].token in Tokens(p[1..]);
      }
    } else if i > 0 {
      RemoveOtherRetains(p[1..], i - 1, token, digest, last, after);
      assert t[1..] == p[1..][..i - 1] + p[1..][i..];
    } else {
      assert t == p[1..];
    }
  }

  lemma DropOtherRetains(p: seq<Entry>, other: Token, token: Token, digest: Digest, last: int, after: set<Token>)
    requires Retained(p, token, digest, last, after) && other != token
    ensures Retained(Dropped(p, other), token, digest, last, after)
  {
    if Has(p, other) { RemoveOtherRetains(p, Position(p, other), token, digest, last, after); }
  }
}
