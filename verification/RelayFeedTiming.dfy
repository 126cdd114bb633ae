/** How long a RelayFeed waits before it tries a relay again, and when it takes a connection for dead. */
module RelayFeedTiming {
  import opened Basics
  import opened RelayFeed
  import opened RelayFeedSafety

  /** The backoff starts at the minimum and doubles ten times at most, up to the maximum. */
  lemma BackoffDoubles(o: Options, n: nat)
    ensures Backoff(o, 0) == Min(o.maxBackoff, o.minBackoff)
    ensures Backoff(o, n + 1) == if n < 10 then Min(o.maxBackoff, 2 * Backoff(o, n)) else Backoff(o, n)
  {
    assert Pow2(0) == 1;
    if n < 10 {
      assert Pow2(n + 1) == 2 * Pow2(n);
      assert o.minBackoff * (2 * Pow2(n)) == 2 * (o.minBackoff * Pow2(n));
    }
  }

  predicate IsWait(n: Note, i: nat, why: Why) {
    n.Waits? && n.conn == i && n.why == why
  }

  lemma {:induction false} NoWaitsSince(trace: seq<Note>, i: nat, why: Why)
    requires forall m :: 0 <= m < |trace| && IsWait(trace[m], i, why) ==> exists e :: m < e < |trace| && trace[e] == OnCaughtUp(i)
    ensures WaitsSince(trace, i, why) == 0
  {
    if trace != [] && Last(trace) != OnCaughtUp(i) {
      var front := trace[..|trace| - 1];
      forall m | 0 <= m < |front| && IsWait(front[m], i, why) ensures exists e :: m < e < |front| && front[e] == OnCaughtUp(i) {
        assert trace[m] == front[m];
        var e :| m < e < |trace| && trace[e] == OnCaughtUp(i);
        assert front[e] == OnCaughtUp(i);
      }
      assert !IsWait(trace[|trace| - 1], i, why);
      NoWaitsSince(front, i, why);
    }
  }

  /** The first retry of its sort, and the first after each real EOSE, waits the minimum. */
  lemma FirstRetryWaitsLeast(o: Options, relays: seq<string>, steps: seq<Step>, i: nat, why: Why, k: nat)
    requires var trace := Run(o, NewFeed(relays), steps).trace;
             && k < |trace| && IsWait(trace[k], i, why)
             && forall m :: 0 <= m < k && IsWait(trace[m], i, why) ==> exists e :: m < e < k && trace[e] == OnCaughtUp(i)
    ensures Run(o, NewFeed(relays), steps).trace[k].wait == Min(o.maxBackoff, o.minBackoff)
  {
    var trace := Run(o, NewFeed(relays), steps).trace;
    RunKeepsInv(o, relays, steps);
    WaitIsBackoff(o, trace, k);
    forall m | 0 <= m < |trace[..k]| && IsWait(trace[..k][m], i, why)
      ensures exists e :: m < e < |trace[..k]| && trace[..k][e] == OnCaughtUp(i)
    {
      var e :| m < e < k && trace[e] == OnCaughtUp(i);
      assert trace[..k][e] == OnCaughtUp(i);
    }
    NoWaitsSince(trace[..k], i, why);
    BackoffDoubles(o, 0);
  }

  lemma {:induction false} SameCount(trace: seq<Note>, i: nat, why: Why, k: nat, l: nat)
    requires k <= l <= |trace| && forall m :: k <= m < l ==> trace[m] != OnCaughtUp(i) && !IsWait(trace[m], i, why)
    ensures WaitsSince(trace[..l], i, why) == WaitsSince(trace[..k], i, why)
    decreases l
  {
    if k < l {
      SameCount(trace, i, why, k, l - 1);
      assert trace[..l][..l - 1] == trace[..l - 1] && Last(trace[..l]) == trace[l - 1];
    }
  }

  /** After a wait the count is one more. */
  lemma CountAfterWait(trace: seq<Note>, i: nat, why: Why, k: nat, l: nat)
    requires k < l <= |trace| && IsWait(trace[k], i, why)
    requires forall m :: k < m < l ==> trace[m] != OnCaughtUp(i) && !IsWait(trace[m], i, why)
    ensures WaitsSince(trace[..l], i, why) == WaitsSince(trace[..k], i, why) + 1
  {
    SameCount(trace, i, why, k + 1, l);
    assert trace[..k + 1][..k] == trace[..k] && Last(trace[..k + 1]) == trace[k];
  }

  lemma DoubledWait(o: Options, n: nat, a: nat, b: nat)
    requires a == Backoff(o, n) && b == Backoff(o, n + 1)
    ensures b == if n < 10 then Min(o.maxBackoff, 2 * a) else a
  {
    BackoffDoubles(o, n);
  }

  lemma WaitsDouble(o: Options, trace: seq<Note>, i: nat, why: Why, k: nat, l: nat)
    requires WaitsOk(o, trace) && k < l < |trace| && IsWait(trace[k], i, why) && IsWait(trace[l], i, why)
    requires forall m :: k < m < l ==> trace[m] != OnCaughtUp(i) && !IsWait(trace[m], i, why)
    ensures trace[l].wait == if WaitsSince(trace[..k], i, why) < 10 then Min(o.maxBackoff, 2 * trace[k].wait) else trace[k].wait
  {
    WaitIsBackoff(o, trace, k);
    WaitIsBackoff(o, trace, l);
    CountAfterWait(trace, i, why, k, l);
    DoubledWait(o, WaitsSince(trace[..k], i, why), trace[k].wait, trace[l].wait);
  }

  /** The next retry of its sort before an EOSE waits twice as long, up to the maximum; from the eleventh on the wait stays. */
  lemma NextRetryDoubles(o: Options, relays: seq<string>, steps: seq<Step>, i: nat, why: Why, k: nat, l: nat)
    requires var trace := Run(o, NewFeed(relays), steps).trace;
             && k < l < |trace| && IsWait(trace[k], i, why) && IsWait(trace[l], i, why)
             && forall m :: k < m < l ==> trace[m] != OnCaughtUp(i) && !IsWait(trace[m], i, why)
    ensures var trace := Run(o, NewFeed(relays), steps).trace;
            trace[l].wait == if WaitsSince(trace[..k], i, why) < 10 then Min(o.maxBackoff, 2 * trace[k].wait) else trace[k].wait
  {
    RunKeepsInv(o, relays, steps);
    WaitsDouble(o, Run(o, NewFeed(relays), steps).trace, i, why, k, l);
  }

  // ------------------------------------------------------------------- dead connections

  /** Every message on the current socket, whatever it is, counts as traffic; one on another socket changes nothing. */
  lemma TrafficCounts(o: Options, f: Feed, i: nat, ws: nat, msg: Message, now: int)
    requires i < |f.conns| && (f.conns[i].ws == Some(ws) ==> f.conns[i].open)
    ensures var g := Next(o, f, SocketMessage(i, ws, msg, now));
            if f.conns[i].ws == Some(ws) then |g.conns| == |f.conns| && g.conns[i].lastRx == now && g.conns[i].ws == Some(ws)
            else g == f.(trace := f.trace + [Got(i, ws, msg)])
  {
    if f.conns[i].ws == Some(ws) && !msg.Junk? && msg.id != f.conns[i].hbId && msg.id == f.conns[i].subId && msg.Closed? {
      ClosedCounts(o, f, i, ws, msg, now);
    }
  }

  lemma ClosedCounts(o: Options, f: Feed, i: nat, ws: nat, msg: Message, now: int)
    requires i < |f.conns| && ClosesSub(f, i, ws, msg)
    ensures var g := MessageIn(o, f, i, ws, msg, now);
            |g.conns| == |f.conns| && g.conns[i].lastRx == now && g.conns[i].ws == Some(ws)
  {
    ClosedIs(o, f, i, ws, msg, now);
  }

  /** What a heartbeat at `now` makes of an open connection: silent for too long it is dropped, else it is left with a probe out. */
  ghost predicate Probed(o: Options, a: Conn, b: Conn, now: int) {
    if a.open && now - a.lastRx > o.idleMs then !b.open && b.ws.None? && !b.eose && b.hbId == 0
    else b.(hbId := a.hbId) == a && (if a.open && a.hbId == 0 then b.hbId != 0 else b.hbId == a.hbId)
  }

  lemma ProbeProbes(o: Options, f: Feed, i: nat, now: int)
    requires Inv(o, f) && Active(f) && i < |f.conns|
    ensures var g := Probe(o, f, i, now);
            Probed(o, f.conns[i], g.conns[i], now) && forall j :: 0 <= j < |f.conns| && j != i ==> g.conns[j] == f.conns[j]
  {
    var c := f.conns[i];
    assert ConnOk(f, i);
    if c.open && now - c.lastRx > o.idleMs {
      DroppedKeeps(o, f, i, c.ws.value);
      RetryKeeps(o, Dropped(f, i, c.ws.value), i);
      DroppedProbed(o, f, i, c.ws.value, now);
    }
  }

  lemma DroppedProbed(o: Options, f: Feed, i: nat, ws: nat, now: int)
    requires i < |f.conns|
    ensures var c := Retry(o, Dropped(f, i, ws), i).conns[i]; !c.open && c.ws.None? && !c.eose && c.hbId == 0
  {
  }

  lemma HeartbeatStep(o: Options, f: Feed, i: nat, now: int, g: Feed)
    requires Inv(o, f) && Active(f) && i < |f.conns| && g == Probe(o, f, i, now)
    ensures Inv(o, g) && Active(g) && |g.conns| == |f.conns| && Heartbeat(o, f, i, now) == Heartbeat(o, g, i + 1, now)
    ensures Probed(o, f.conns[i], g.conns[i], now) && forall j :: 0 <= j < |f.conns| && j != i ==> g.conns[j] == f.conns[j]
  {
    ProbeKeeps(o, f, i, now);
    ProbeProbes(o, f, i, now);
  }

  lemma {:induction false} HeartbeatFrom(o: Options, f: Feed, i: nat, now: int, j: nat)
    requires Inv(o, f) && Active(f) && i <= |f.conns| && j < |f.conns|
    ensures var g := Heartbeat(o, f, i, now);
            |g.conns| == |f.conns| && if j < i then g.conns[j] == f.conns[j] else Probed(o, f.conns[j], g.conns[j], now)
    decreases |f.conns| - i
  {
    if i < |f.conns| {
      var g := Probe(o, f, i, now);
      HeartbeatStep(o, f, i, now, g);
      HeartbeatFrom(o, g, i + 1, now, j);
      if j != i {
        assert g.conns[j] == f.conns[j];
      }
    }
  }

  /**
   * A heartbeat drops exactly the open connections that have been silent for longer
   * than the idle limit, and leaves every other open one with a probe out.
   */
  lemma HeartbeatDropsTheSilent(o: Options, relays: seq<string>, steps: seq<Step>, now: int, j: nat)
    requires var f := Run(o, NewFeed(relays), steps); f.started && !f.stopped && j < |f.conns|
    ensures var f := Run(o, NewFeed(relays), steps);
            var g := Next(o, f, HeartbeatTick(now));
            |g.conns| == |f.conns| && Probed(o, f.conns[j], g.conns[j], now)
  {
    RunKeepsInv(o, relays, steps);
    HeartbeatFrom(o, Run(o, NewFeed(relays), steps), 0, now, j);
  }
}
