/** Message rate limit per WebSocket (tryConsumeWsToken in src/server.ts). Time is in milliseconds. */
module TokenBucket {
  import opened Basics

  /** WS_MSG_RATE tokens per second, WS_MSG_BURST at most; the burst is at least the rate. */
  datatype Limits = Limits(rate: nat, burst: nat) {
    predicate Valid() { 0 < rate <= burst }
  }

  datatype Bucket = Bucket(tokens: int, lastRefill: int)

  function Earned(l: Limits, elapsed: int): int {
    Max(0, elapsed) * l.rate / 1000
  }

  /** One message: the socket's new bucket and whether the message is let through. */
  function TryConsume(l: Limits, state: Option<Bucket>, now: int): (r: (Bucket, bool)) {
    var b := if state.Some? then state.value else Bucket(l.burst, now);
    var refill := Earned(l, now - b.lastRefill);
    var c := if refill > 0 then Bucket(Min(l.burst, b.tokens + refill), now) else b;
    if c.tokens <= 0 then (c, false) else (c.(tokens := c.tokens - 1), true)
  }

  /** The bucket after messages at these times, from a new socket. */
  function After(l: Limits, times: seq<int>): Option<Bucket> {
    if times == [] then None else Some(TryConsume(l, After(l, times[..|times| - 1]), Last(times)).0)
  }

  predicate Accepted(l: Limits, times: seq<int>, k: nat)
    requires k < |times|
  {
    TryConsume(l, After(l, times[..k]), times[k]).1
  }

  /** How many of the messages i..j are let through. */
  function AcceptedIn(l: Limits, times: seq<int>, i: nat, j: nat): nat
    requires i <= j <= |times|
    decreases j
  {
    if i == j then 0 else AcceptedIn(l, times, i, j - 1) + if Accepted(l, times, j - 1) then 1 else 0
  }

  ghost function AcceptedSet(l: Limits, times: seq<int>, i: nat, j: nat): set<nat>
    requires i <= j <= |times|
  {
    set k: nat | i <= k < j && Accepted(l, times, k)
  }

  lemma {:induction false} AcceptedInCounts(l: Limits, times: seq<int>, i: nat, j: nat)
    requires i <= j <= |times|
    ensures AcceptedIn(l, times, i, j) == |AcceptedSet(l, times, i, j)|
    decreases j
  {
    if i < j {
      AcceptedInCounts(l, times, i, j - 1);
      assert AcceptedSet(l, times, i, j) == AcceptedSet(l, times, i, j - 1) + if Accepted(l, times, j - 1) then {j - 1} else {};
    } else {
      assert AcceptedSet(l, times, i, j) == {};
    }
  }

  ghost predicate Nondecreasing(times: seq<int>) {
    forall i, j :: 0 <= i <= j < |times| ==> times[i] <= times[j]
  }

  /** What the bucket could still pay out by `now`, in thousandths of a message. */
  function Credit(l: Limits, b: Bucket, now: int): int {
    1000 * b.tokens + l.rate * (now - b.lastRefill)
  }

  predicate Low(l: Limits, b: Bucket, now: int) {
    0 <= b.tokens < l.burst && b.lastRefill <= now
  }

  /** A message costs 1000 when it is let through, and leaves fewer than `burst` tokens; its credit is at most a full burst. */
  lemma MessagePays(l: Limits, state: Option<Bucket>, now: int)
    requires l.Valid() && (state.Some? ==> Low(l, state.value, now))
    ensures var (b, ok) := TryConsume(l, state, now);
            && Low(l, b, now)
            && Credit(l, b, now) + (if ok then 1000 else 0) <= 1000 * l.burst
            && (state.Some? ==> Credit(l, b, now) + (if ok then 1000 else 0) <= Credit(l, state.value, now))
  {
    if state.Some? {
      var b := state.value;
      assert Max(0, now - b.lastRefill) * l.rate == l.rate * (now - b.lastRefill);
      assert l.rate * (now - b.lastRefill) >= 0;
      assert l.rate * (now - now) == 0;
    } else {
      assert Max(0, now - now) * l.rate == 0;
      assert l.rate * (now - now) == 0;
    }
  }

  /** Time spans add up, and a longer one earns no less. */
  lemma SpansAdd(rate: nat, s: int, t: int, u: int)
    ensures rate * (u - s) == rate * (t - s) + rate * (u - t)
    ensures s <= t ==> rate * (t - s) >= 0
  {
  }

  lemma {:induction false} StaysLow(l: Limits, times: seq<int>, now: int)
    requires l.Valid() && Nondecreasing(times) && (times != [] ==> Last(times) <= now)
    ensures After(l, times).Some? ==> Low(l, After(l, times).value, now)
  {
    if times != [] {
      var front := times[..|times| - 1];
      assert front != [] ==> Last(front) == times[|times| - 2];
      StaysLow(l, front, Last(times));
      MessagePays(l, After(l, front), Last(times));
    }
  }

  /** What messages i..j took, together with what is left, is at most a full burst and what the time between them earned. */
  ghost predicate Paid(l: Limits, times: seq<int>, i: nat, j: nat)
    requires i < j <= |times|
  {
    && After(l, times[..j]).Some?
    && 1000 * AcceptedIn(l, times, i, j) + Credit(l, After(l, times[..j]).value, times[j - 1])
       <= 1000 * l.burst + l.rate * (times[j - 1] - times[i])
  }

  lemma OneMessagePaid(l: Limits, times: seq<int>, i: nat)
    requires l.Valid() && Nondecreasing(times) && i < |times|
    ensures Paid(l, times, i, i + 1)
  {
    assert times[..i + 1][..i] == times[..i];
    StaysLow(l, times[..i], times[i]);
    MessagePays(l, After(l, times[..i]), times[i]);
    SpansAdd(l.rate, times[i], times[i], times[i]);
  }

  lemma NextMessagePaid(l: Limits, times: seq<int>, i: nat, j: nat)
    requires l.Valid() && Nondecreasing(times) && i < j < |times| && Paid(l, times, i, j)
    ensures Paid(l, times, i, j + 1)
  {
    assert times[..j + 1][..j] == times[..j];
    var b := After(l, times[..j]).value;
    StaysLow(l, times[..j], times[j]);
    MessagePays(l, Some(b), times[j]);
    SpansAdd(l.rate, b.lastRefill, times[j - 1], times[j]);
    SpansAdd(l.rate, times[i], times[j - 1], times[j]);
  }

  lemma {:induction false} WindowPaid(l: Limits, times: seq<int>, i: nat, j: nat)
    requires l.Valid() && Nondecreasing(times) && i < j <= |times|
    ensures Paid(l, times, i, j)
    decreases j
  {
    if i < j - 1 {
      WindowPaid(l, times, i, j - 1);
      NextMessagePaid(l, times, i, j - 1);
    } else {
      OneMessagePaid(l, times, i);
    }
  }

  /**
   * The bound: of one socket's messages in any window [s, t], at most
   * burst + rate * (t - s) / 1000 are let through.
   */
  lemma WindowBound(l: Limits, times: seq<int>, i: nat, j: nat, s: int, t: int)
    requires l.Valid() && Nondecreasing(times) && i < j <= |times| && s <= times[i] && times[j - 1] <= t
    ensures AcceptedIn(l, times, i, j) <= l.burst + l.rate * (t - s) / 1000
  {
    var first, last := times[i], times[j - 1];
    WindowPaid(l, times, i, j);
    CreditIsOwed(l, times[..j], last);
    SpansAdd(l.rate, s, first, last);
    SpansAdd(l.rate, s, last, t);
    SpansAdd(l.rate, last, t, t);
    InWhole(AcceptedIn(l, times, i, j), l.burst, l.rate * (t - s));
  }

  lemma CreditIsOwed(l: Limits, times: seq<int>, now: int)
    requires l.Valid() && Nondecreasing(times) && times != [] && Last(times) <= now
    ensures Credit(l, After(l, times).value, now) >= 0
  {
    StaysLow(l, times, now);
    SpansAdd(l.rate, After(l, times).value.lastRefill, now, now);
  }

  lemma InWhole(n: int, burst: int, earned: int)
    requires 1000 * n <= 1000 * burst + earned
    ensures n <= burst + earned / 1000
  {
  }

  /** What is on hand at `now`: the tokens plus the whole ones earned since the last refill, at most a full burst. */
  function Room(l: Limits, state: Option<Bucket>, now: int): int {
    if state.None? then l.burst else Min(l.burst, state.value.tokens + Earned(l, now - state.value.lastRefill))
  }

  /** The bucket after n messages at one instant. */
  function AfterBurst(l: Limits, state: Option<Bucket>, now: int, n: nat): Option<Bucket> {
    if n == 0 then state else Some(TryConsume(l, AfterBurst(l, state, now, n - 1), now).0)
  }

  lemma RoomShrinks(l: Limits, state: Option<Bucket>, now: int)
    requires l.Valid() && (state.Some? ==> Low(l, state.value, now))
    ensures Room(l, state, now) >= 0
    ensures var (b, ok) := TryConsume(l, state, now);
            ok == (Room(l, state, now) > 0) && Room(l, Some(b), now) == Max(0, Room(l, state, now) - 1) && Low(l, b, now)
  {
    MessagePays(l, state, now);
    assert Earned(l, now - now) == 0;
    if state.Some? {
      assert Earned(l, now - state.value.lastRefill) >= 0;
    }
  }

  /**
   * Nothing that was earned is refused: at any moment a burst at one instant is
   * let through exactly up to what is on hand; a new socket has a full burst.
   */
  lemma {:induction false} BurstIsExact(l: Limits, state: Option<Bucket>, now: int, n: nat)
    requires l.Valid() && (state.Some? ==> Low(l, state.value, now))
    ensures AfterBurst(l, state, now, n).Some? ==> Low(l, AfterBurst(l, state, now, n).value, now)
    ensures Room(l, AfterBurst(l, state, now, n), now) == Max(0, Room(l, state, now) - n)
    ensures TryConsume(l, AfterBurst(l, state, now, n), now).1 <==> n < Room(l, state, now)
  {
    RoomShrinks(l, state, now);
    if n > 0 {
      BurstIsExact(l, state, now, n - 1);
      RoomShrinks(l, AfterBurst(l, state, now, n - 1), now);
    }
    RoomShrinks(l, AfterBurst(l, state, now, n), now);
  }

  /** A new socket's bucket after n messages at time s. */
  lemma {:induction false} FirstBurst(l: Limits, s: int, n: nat)
    requires l.Valid() && n > 0
    ensures AfterBurst(l, None, s, n) == Some(Bucket(Max(0, l.burst - n), s))
  {
    assert Earned(l, s - s) == 0;
    if n > 1 {
      FirstBurst(l, s, n - 1);
    }
  }

  /** A new socket may send a full burst at once, and no more. */
  lemma NewSocketHasABurst(l: Limits, s: int, n: nat)
    requires l.Valid()
    ensures TryConsume(l, AfterBurst(l, None, s, n), s).1 <==> n < l.burst
  {
    BurstIsExact(l, None, s, n);
  }

  /**
   * What waiting earns, exactly: after a burst or more at time s, d milliseconds
   * later as many messages at once are let through as rate * d / 1000 in whole, at
   * most a full burst.
   */
  lemma WaitingEarns(l: Limits, s: int, more: nat, d: nat, n: nat)
    requires l.Valid()
    ensures var emptied := AfterBurst(l, None, s, l.burst + more);
            TryConsume(l, AfterBurst(l, emptied, s + d, n), s + d).1 <==> n < Min(l.burst, l.rate * d / 1000)
  {
    FirstBurst(l, s, l.burst + more);
    RoomEarned(l, s, s + d);
    BurstIsExact(l, Some(Bucket(0, s)), s + d, n);
  }

  lemma RoomEarned(l: Limits, s: int, now: int)
    requires l.Valid() && s <= now
    ensures Room(l, Some(Bucket(0, s)), now) == Min(l.burst, l.rate * (now - s) / 1000)
  {
    var d := now - s;
    assert Max(0, d) * l.rate == l.rate * d;
  }

  /** The bucket after messages at these times, from a given one. */
  function Onward(l: Limits, b: Bucket, times: seq<int>): Bucket {
    if times == [] then b else TryConsume(l, Some(Onward(l, b, times[..|times| - 1])), Last(times)).0
  }

  /** Messages meet the bucket one after the other, from a new socket or a given bucket on. */
  lemma MessagesInOrder(l: Limits, b: Bucket, times: seq<int>, now: int)
    ensures Onward(l, b, []) == b && Onward(l, b, times + [now]) == TryConsume(l, Some(Onward(l, b, times)), now).0
    ensures After(l, []) == None && After(l, times + [now]) == Some(TryConsume(l, After(l, times), now).0)
  {
    assert (times + [now])[..|times|] == times;
  }

  /** An empty bucket: refused and left alone before the next token is earned, let through from then on. */
  lemma EmptyBucket(l: Limits, b: Bucket, now: int)
    requires l.Valid() && b.tokens == 0 && b.lastRefill <= now
    ensures var (c, ok) := TryConsume(l, Some(b), now);
            && (ok <==> l.rate * (now - b.lastRefill) >= 1000) && (!ok ==> c == b)
  {
    var d := now - b.lastRefill;
    assert Max(0, d) * l.rate == l.rate * d >= 0;
  }

  /**
   * Trying in vain costs nothing: an empty bucket that is asked before its next
   * token is earned, however often, gives that token once 1000 / rate ms since its
   * last refill have passed, and no message before.
   */
  lemma {:induction false} WaitingIsKept(l: Limits, b: Bucket, times: seq<int>, now: int)
    requires l.Valid() && b.tokens == 0 && b.lastRefill <= now
    requires forall k :: 0 <= k < |times| ==> b.lastRefill <= times[k] && l.rate * (times[k] - b.lastRefill) < 1000
    ensures Onward(l, b, times) == b
    ensures TryConsume(l, Some(Onward(l, b, times)), now).1 <==> l.rate * (now - b.lastRefill) >= 1000
  {
    EmptyBucket(l, b, now);
    if times != [] {
      var front, last := times[..|times| - 1], times[|times| - 1];
      assert forall k :: 0 <= k < |front| ==> front[k] == times[k];
      WaitingIsKept(l, b, front, last);
      EmptyBucket(l, b, last);
    }
  }

  /** The module's table of buckets, one per socket. */
  class RateLimiter {
    const limits: Limits
    var buckets: map<nat, Bucket>

    constructor (limits: Limits)
      ensures this.limits == limits && buckets == map[]
    {
      this.limits, buckets := limits, map[];
    }

    method TryConsumeWsToken(ws: nat, now: int) returns (ok: bool)
      modifies this
      ensures var r := TryConsume(limits, if ws in old(buckets) then Some(old(buckets)[ws]) else None, now);
              ok == r.1 && buckets == old(buckets)[ws := r.0]
    {
      var state := if ws in buckets then buckets[ws] else Bucket(limits.burst, now);
      var refill := Max(0, now - state.lastRefill) * limits.rate / 1000;
      if refill > 0 {
        state := Bucket(Min(limits.burst, state.tokens + refill), now);
      }
      ok := state.tokens > 0;
      if ok {
        state := state.(tokens := state.tokens - 1);
      }
      buckets := buckets[ws := state];
    }
  }
}
