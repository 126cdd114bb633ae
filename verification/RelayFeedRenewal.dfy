/**
 * No open connection is left without a subscription: a relay either still serves
 * the one it was sent, or the feed is about to send it a new one.
 */
module RelayFeedRenewal {
  import opened Basics
  import opened RelayFeed
  import opened RelayFeedSafety

  /**
   * Relay i serves a subscription on socket ws, by the trace alone: one was sent,
   * neither it nor the socket was ended or replaced since, and the relay has not
   * closed it.
   */
  ghost predicate Serves(trace: seq<Note>, i: nat, ws: nat) {
    exists j, sub :: 0 <= j < |trace| && ServesSince(trace, i, ws, j, sub)
  }

  ghost predicate ServesSince(trace: seq<Note>, i: nat, ws: nat, j: int, sub: nat)
    requires 0 <= j < |trace|
  {
    SubStands(trace, i, j, ws, sub) && forall m :: j < m < |trace| ==> trace[m] != Got(i, ws, Closed(sub))
  }

  /** The relay has not closed the subscription last sent to it. */
  function Unclosed(trace: seq<Note>, i: nat): bool {
    if trace == [] then false
    else
      var front, n := trace[..|trace| - 1], Last(trace);
      if n.Subscribed? && n.conn == i then true
      else if n.Got? && n.conn == i && n.msg.Closed? && MarkOf(front, i).Live?
              && MarkOf(front, i).ws == n.ws && MarkOf(front, i).sub == n.msg.id then false
      else Unclosed(front, i)
  }

  lemma {:induction false} UnclosedServes(trace: seq<Note>, i: nat, ws: nat)
    requires MarkOf(trace, i).Live? && MarkOf(trace, i).ws == ws && Unclosed(trace, i)
    ensures Serves(trace, i, ws)
  {
    var front, n, sub := trace[..|trace| - 1], Last(trace), MarkOf(trace, i).sub;
    if n.Subscribed? && n.conn == i {
      assert ServesSince(trace, i, ws, |front|, sub);
    } else {
      UnclosedServes(front, i, ws);
      var j, s :| 0 <= j < |front| && ServesSince(front, i, ws, j, s);
      MarkIsLiveSub(front, i, ws, s);
      assert ServesSince(trace, i, ws, j, s);
    }
  }

  /** The note neither sends relay j a subscription nor reports that it closed one. */
  predicate Foreign(n: Note, j: nat) {
    !(n.Subscribed? && n.conn == j) && !(n.Got? && n.conn == j && n.msg.Closed?)
  }

  ghost predicate OnlyForeign(a: seq<Note>, b: seq<Note>, j: nat) {
    a <= b && forall m :: |a| <= m < |b| ==> Foreign(b[m], j)
  }

  lemma {:induction false} ForeignKeeps(a: seq<Note>, b: seq<Note>, j: nat)
    requires OnlyForeign(a, b, j)
    ensures Unclosed(b, j) == Unclosed(a, j)
    decreases |b|
  {
    if |a| < |b| {
      ForeignKeeps(a, b[..|b| - 1], j);
    } else {
      assert a == b;
    }
  }

  /** Subscription ids are never used twice. */
  ghost predicate IdsUsed(f: Feed) {
    forall m :: 0 <= m < |f.trace| && f.trace[m].Subscribed? ==> f.trace[m].sub < f.nextId
  }

  /** Conn i waits to be sent a new subscription on its socket. */
  predicate Pending(f: Feed, i: nat)
    requires i < |f.conns|
  {
    var c := f.conns[i];
    c.ws.Some? && c.timer.Some? && c.timer.value in f.timers && f.timers[c.timer.value] == Resubscribe(i, c.ws.value)
  }

  ghost predicate Renewed(f: Feed, i: nat)
    requires i < |f.conns|
  {
    f.conns[i].open ==> Unclosed(f.trace, i) || Pending(f, i)
  }

  ghost predicate Renewing(f: Feed) {
    IdsUsed(f) && forall i :: 0 <= i < |f.conns| ==> Renewed(f, i)
  }

  /** g has dealt with conn i only, also in what it noted. */
  ghost predicate Deals(f: Feed, g: Feed, i: nat) {
    && Touches(f, g, i) && f.trace <= g.trace && f.nextId <= g.nextId
    && (forall j: nat :: j != i ==> OnlyForeign(f.trace, g.trace, j))
    && (forall m :: |f.trace| <= m < |g.trace| && g.trace[m].Subscribed? ==> g.trace[m].sub < g.nextId)
  }

  lemma DealsKeeps(o: Options, f: Feed, g: Feed, i: nat)
    requires Base(o, f) && Renewing(f) && i < |f.conns| && Deals(f, g, i) && Renewed(g, i)
    ensures Renewing(g)
  {
    forall j | 0 <= j < |g.conns| ensures Renewed(g, j) {
      if j != i {
        assert Renewed(f, j) && ConnOk(f, j);
        ForeignKeeps(f.trace, g.trace, j);
      }
    }
  }

  lemma DealsTwice(f: Feed, g: Feed, h: Feed, i: nat)
    requires Deals(f, g, i) && Deals(g, h, i)
    ensures Deals(f, h, i)
  {
    TouchesTwice(f, g, h, i);
    forall j: nat | j != i ensures OnlyForeign(f.trace, h.trace, j) {
      assert OnlyForeign(f.trace, g.trace, j) && OnlyForeign(g.trace, h.trace, j);
    }
  }

  // -------------------------------------------------------------------- the handlers

  lemma EmitDeals(f: Feed, i: nat)
    ensures Deals(f, Emit(f), i) && Emit(f).(last := f.last, trace := f.trace) == f
    ensures OnlyForeign(f.trace, Emit(f).trace, i)
  {
  }

  /** A note about relay i, after changes to its connection only. */
  lemma NotedDeals(f: Feed, g: Feed, i: nat, n: Note)
    requires Touches(f, g, i) && g.trace == f.trace + [n] && f.nextId <= g.nextId
    requires (n.Subscribed? ==> n.conn == i && n.sub < g.nextId) && (n.Got? ==> n.conn == i)
    ensures Deals(f, g, i)
  {
  }

  lemma LastNote(trace: seq<Note>, i: nat, ws: nat, sub: nat)
    ensures Unclosed(trace + [Subscribed(i, ws, sub)], i)
  {
    assert Last(trace + [Subscribed(i, ws, sub)]) == Subscribed(i, ws, sub);
  }

  lemma EmitAfter(f: Feed, g: Feed, i: nat, n: Note)
    requires Deals(f, g, i) && g.trace == f.trace + [n] && Unclosed(g.trace, i)
    ensures Deals(f, Emit(g), i) && Unclosed(Emit(g).trace, i) && f.trace + [n] <= Emit(g).trace
  {
    EmitDeals(g, i);
    ForeignKeeps(g.trace, Emit(g).trace, i);
    DealsTwice(f, g, Emit(g), i);
  }

  /** A REQ is sent: its subscription stands unclosed. */
  lemma SubscribeDeals(f: Feed, i: nat, ws: nat)
    requires i < |f.conns|
    ensures Deals(f, Subscribe(f, i, ws), i) && Unclosed(Subscribe(f, i, ws).trace, i)
    ensures f.trace + [Subscribed(i, ws, f.nextId)] <= Subscribe(f, i, ws).trace
  {
    var n := Subscribed(i, ws, f.nextId);
    var g := Note1(SetConn(f, i, f.conns[i].(eose := false, subId := f.nextId)).(nextId := f.nextId + 1), n);
    NotedDeals(f, g, i, n);
    LastNote(f.trace, i, ws, f.nextId);
    EmitAfter(f, g, i, n);
  }

  lemma ScheduleDeals(o: Options, f: Feed, i: nat, t: Timer)
    requires i < |f.conns|
    requires f.conns[i].timer.Some? ==> f.conns[i].timer.value in f.timers && f.timers[f.conns[i].timer.value].conn == i
    requires forall h :: h in f.timers ==> h < f.nextTimer
    ensures Deals(f, Schedule(f, i, t), i) && Schedule(f, i, t).trace == f.trace
    ensures Schedule(f, i, t).conns[i].(timer := f.conns[i].timer) == f.conns[i]
    ensures t == Resubscribe(i, if f.conns[i].ws.Some? then f.conns[i].ws.value else 0) && f.conns[i].ws.Some? ==> Pending(Schedule(f, i, t), i)
  {
  }

  lemma RetryDeals(o: Options, f: Feed, i: nat)
    requires Base(o, f) && i < |f.conns|
    ensures Deals(f, Retry(o, f, i), i) && Retry(o, f, i).conns[i].open == f.conns[i].open
  {
    if !f.stopped {
      assert ConnOk(f, i);
      var g := Defer(o, f, i, Reconnecting);
      assert Deals(f, g, i);
      ScheduleDeals(o, g, i, Reconnect(i));
      DealsTwice(f, g, Retry(o, f, i), i);
    }
  }

  lemma ConnectDeals(o: Options, f: Feed, i: nat, opens: bool)
    requires Base(o, f) && i < |f.conns|
    ensures Deals(f, Connect(o, f, i, opens), i) && Connect(o, f, i, opens).conns[i].open == f.conns[i].open
  {
    RetryDeals(o, f, i);
  }

  /** A lost connection is not open. */
  lemma LoseDeals(o: Options, f: Feed, i: nat, ws: nat)
    requires Base(o, f) && i < |f.conns| && f.conns[i].ws == Some(ws)
    ensures var g := Lose(o, Note1(f, Down(i, ws)), i); Deals(f, g, i) && !g.conns[i].open
  {
    var c := f.conns[i].(ws := None, open := false, eose := false, hbId := 0);
    var g := Note1(SetConn(f, i, c), Down(i, ws));
    DroppedKeeps(o, f, i, ws);
    EmitDeals(g, i);
    assert Deals(f, g, i);
    DealsTwice(f, g, Emit(g), i);
    RetryDeals(o, Emit(g), i);
    DealsTwice(f, Emit(g), Retry(o, Emit(g), i), i);
  }

  lemma OpenedRenews(o: Options, f: Feed, i: nat, ws: nat, now: int)
    requires Inv(o, f) && Renewing(f) && i < |f.conns|
    ensures Renewing(Opened(f, i, ws, now))
  {
    if f.conns[i].ws == Some(ws) {
      var g := SetConn(f, i, f.conns[i].(open := true, lastRx := now));
      SubscribeDeals(g, i, ws);
      assert Deals(f, g, i);
      DealsTwice(f, g, Subscribe(g, i, ws), i);
      DealsKeeps(o, f, Subscribe(g, i, ws), i);
    }
  }

  lemma DownRenews(o: Options, f: Feed, i: nat, ws: nat)
    requires Inv(o, f) && Renewing(f) && i < |f.conns|
    ensures Renewing(WentDown(o, f, i, ws))
  {
    var g := Note1(f, Down(i, ws));
    if f.conns[i].ws == Some(ws) {
      LoseDeals(o, f, i, ws);
      DealsKeeps(o, f, Lose(o, g, i), i);
    } else {
      assert OnlyForeign(f.trace, g.trace, i) && Renewed(f, i);
      ForeignKeeps(f.trace, g.trace, i);
      DealsKeeps(o, f, g, i);
    }
  }

  /** A resubscription is scheduled on the current socket. */
  lemma ResubscribeDeals(o: Options, f: Feed, i: nat, ws: nat)
    requires Base(o, f) && i < |f.conns| && f.conns[i].ws == Some(ws)
    ensures var g := Schedule(Defer(o, f, i, Resubscribing), i, Resubscribe(i, ws)); Deals(f, g, i) && Pending(g, i)
  {
    assert ConnOk(f, i);
    var g := Defer(o, f, i, Resubscribing);
    assert Deals(f, g, i);
    ScheduleDeals(o, g, i, Resubscribe(i, ws));
    DealsTwice(f, g, Schedule(g, i, Resubscribe(i, ws)), i);
  }

  /** CLOSED for the current subscription, before the resubscription is scheduled. */
  lemma ClosedDeals(o: Options, f: Feed, i: nat, ws: nat, msg: Message, c: Conn)
    requires Inv(o, f) && i < |f.conns| && f.conns[i].open && f.conns[i].ws == Some(ws) && msg == Closed(c.subId)
    requires c.(lastRx := f.conns[i].lastRx, eose := f.conns[i].eose) == f.conns[i] && !c.eose
    ensures var g := Emit(SetConn(Note1(f, Got(i, ws, msg)), i, c)); Base(o, g) && Deals(f, g, i) && g.conns[i] == c
  {
    var a := SetConn(Note1(f, Got(i, ws, msg)), i, c);
    VerdictKeeps(o, f, i, ws, msg, c);
    EmitKeeps(o, a);
    EmitDeals(a, i);
    NotedDeals(f, a, i, Got(i, ws, msg));
    DealsTwice(f, a, Emit(a), i);
  }

  /** CLOSED for the current subscription: a new one is due on this socket. */
  lemma ClosedRenews(o: Options, f: Feed, i: nat, ws: nat, msg: Message, now: int, u: Feed)
    requires Inv(o, f) && Renewing(f) && i < |f.conns| && f.conns[i].open && ClosesSub(f, i, ws, msg)
    requires u == MessageIn(o, f, i, ws, msg, now)
    ensures Renewing(u)
  {
    ClosedIs(o, f, i, ws, msg, now);
    var c := f.conns[i].(lastRx := now, eose := false);
    var a := Emit(SetConn(Note1(f, Got(i, ws, msg)), i, c));
    ClosedDeals(o, f, i, ws, msg, c);
    ResubscribeDeals(o, a, i, ws);
    DealsTwice(f, a, u, i);
    DealsKeeps(o, f, u, i);
  }

  /** Conn i's subscription, socket and timer are as they were, after a message it got. */
  ghost predicate Unmoved(f: Feed, g: Feed, i: nat, got: Note)
    requires i < |f.conns|
  {
    && Deals(f, g, i) && g.timers == f.timers && OnlyForeign(f.trace + [got], g.trace, i)
    && g.conns[i].ws == f.conns[i].ws && g.conns[i].open == f.conns[i].open && g.conns[i].timer == f.conns[i].timer
  }

  lemma EoseMoves(o: Options, f: Feed, i: nat, ws: nat, msg: Message, now: int, u: Feed)
    requires i < |f.conns| && f.conns[i].ws == Some(ws) && msg == Eose(f.conns[i].subId) && msg.id != f.conns[i].hbId
    requires u == MessageIn(o, f, i, ws, msg, now)
    ensures Unmoved(f, u, i, Got(i, ws, msg))
  {
    var c := f.conns[i].(lastRx := now, eose := true, attempt := 0, closedN := 0);
    var a := SetConn(Note1(f, Got(i, ws, msg)), i, c);
    var g := Note1(a, OnCaughtUp(i));
    EoseIs(o, f, i, ws, msg, now);
    NotedDeals(f, a, i, Got(i, ws, msg));
    NotedDeals(a, g, i, OnCaughtUp(i));
    DealsTwice(f, a, g, i);
    EmitDeals(g, i);
    DealsTwice(f, g, u, i);
  }

  lemma GotMoves(f: Feed, i: nat, ws: nat, msg: Message, c: Conn, u: Feed)
    requires i < |f.conns| && c.ws == f.conns[i].ws && c.open == f.conns[i].open && c.timer == f.conns[i].timer
    requires var g := SetConn(Note1(f, Got(i, ws, msg)), i, c); u == g || u == Note1(g, OnEvent(i, c.subId))
    ensures Unmoved(f, u, i, Got(i, ws, msg))
  {
    var g := SetConn(Note1(f, Got(i, ws, msg)), i, c);
    NotedDeals(f, g, i, Got(i, ws, msg));
    if u != g {
      NotedDeals(g, u, i, OnEvent(i, c.subId));
      DealsTwice(f, g, u, i);
    }
  }

  /** Any message but a CLOSED for the current subscription. */
  lemma OtherMessage(o: Options, f: Feed, i: nat, ws: nat, msg: Message, now: int, u: Feed)
    requires i < |f.conns| && !ClosesSub(f, i, ws, msg) && u == MessageIn(o, f, i, ws, msg, now)
    ensures Unmoved(f, u, i, Got(i, ws, msg))
  {
    var c := f.conns[i].(lastRx := now);
    if f.conns[i].ws != Some(ws) {
      assert SetConn(Note1(f, Got(i, ws, msg)), i, f.conns[i]) == Note1(f, Got(i, ws, msg));
      GotMoves(f, i, ws, msg, f.conns[i], u);
    } else if msg == Eose(f.conns[i].subId) && msg.id != f.conns[i].hbId {
      EoseMoves(o, f, i, ws, msg, now, u);
    } else {
      GotMoves(f, i, ws, msg, if !msg.Junk? && msg.id == c.hbId && (msg.Eose? || msg.Closed?) then c.(hbId := 0) else c, u);
    }
  }

  lemma MessageRenews(o: Options, f: Feed, i: nat, ws: nat, msg: Message, now: int)
    requires Inv(o, f) && Renewing(f) && i < |f.conns| && (f.conns[i].ws == Some(ws) ==> f.conns[i].open)
    ensures Renewing(MessageIn(o, f, i, ws, msg, now))
  {
    if ClosesSub(f, i, ws, msg) {
      ClosedRenews(o, f, i, ws, msg, now, MessageIn(o, f, i, ws, msg, now));
    } else {
      var g, got := MessageIn(o, f, i, ws, msg, now), f.trace + [Got(i, ws, msg)];
      OtherMessage(o, f, i, ws, msg, now, g);
      assert ConnOk(f, i) && Renewed(f, i);
      assert got[..|got| - 1] == f.trace && Last(got) == Got(i, ws, msg);
      assert Unclosed(got, i) == Unclosed(f.trace, i);
      ForeignKeeps(got, g.trace, i);
      DealsKeeps(o, f, g, i);
    }
  }

  lemma TimerRenews(o: Options, f: Feed, h: nat, opens: bool)
    requires Inv(o, f) && Renewing(f) && h in f.timers
    ensures Renewing(TimerFires(o, f, h, opens))
  {
    var t := f.timers[h];
    var i := t.conn;
    var g := SetConn(f, i, f.conns[i].(timer := None)).(timers := f.timers - {h});
    FiredTimerGone(o, f, h);
    assert ConnOk(f, i) && Renewed(f, i) && Deals(f, g, i);
    var u := TimerFires(o, f, h, opens);
    if t.Reconnect? {
      ConnectDeals(o, g, i, opens);
      DealsTwice(f, g, u, i);
    } else if g.conns[i].open && g.conns[i].ws == Some(t.ws) {
      SubscribeDeals(g, i, t.ws);
      DealsTwice(f, g, u, i);
    }
    DealsKeeps(o, f, u, i);
  }

  lemma ProbeRenews(o: Options, f: Feed, i: nat, now: int)
    requires Inv(o, f) && Renewing(f) && Active(f) && i < |f.conns|
    ensures Renewing(Probe(o, f, i, now))
  {
    var c := f.conns[i];
    assert ConnOk(f, i) && Renewed(f, i);
    if c.open && now - c.lastRx > o.idleMs {
      LoseDeals(o, f, i, c.ws.value);
      DealsKeeps(o, f, Probe(o, f, i, now), i);
    } else if c.open && c.hbId == 0 {
      var g := Probe(o, f, i, now);
      assert Deals(f, g, i);
      DealsKeeps(o, f, g, i);
    }
  }

  lemma {:induction false} HeartbeatRenews(o: Options, f: Feed, i: nat, now: int)
    requires Inv(o, f) && Renewing(f) && Active(f) && i <= |f.conns|
    ensures Renewing(Heartbeat(o, f, i, now))
    decreases |f.conns| - i
  {
    if i < |f.conns| {
      ProbeKeeps(o, f, i, now);
      ProbeRenews(o, f, i, now);
      HeartbeatRenews(o, Probe(o, f, i, now), i + 1, now);
    }
  }

  lemma {:induction false} StartRenews(o: Options, f: Feed, i: nat, sockets: seq<bool>)
    requires Base(o, f) && Renewing(f) && i <= |f.conns| == |sockets|
    requires forall j :: i <= j < |f.conns| ==> f.conns[j].ws.None? && f.conns[j].timer.None?
    ensures Renewing(StartFrom(o, f, i, sockets))
    decreases |f.conns| - i
  {
    if i < |f.conns| {
      var g := Connect(o, f, i, sockets[i]);
      assert ConnOk(f, i);
      ConnectKeeps(o, f, i, sockets[i]);
      ConnectDeals(o, f, i, sockets[i]);
      DealsKeeps(o, f, g, i);
      StartRenews(o, g, i + 1, sockets);
    }
  }

  lemma StopRenews(f: Feed)
    requires Renewing(f)
    ensures Renewing(Stop(f))
  {
    var g := Note1(Halt(f), Stopped);
    EmitDeals(g, 0);
    assert forall i :: 0 <= i < |Stop(f).conns| ==> !Stop(f).conns[i].open;
  }

  lemma StepRenews(o: Options, f: Feed, step: Step)
    requires Inv(o, f) && Renewing(f)
    ensures Renewing(Next(o, f, step))
  {
    match step
    case Start(sockets) =>
      if !f.started && !f.stopped && |sockets| == |f.conns| {
        var g := f.(started := true);
        forall j | 0 <= j < |g.conns| ensures ConnOk(g, j) && Renewed(g, j) { assert ConnOk(f, j) && Renewed(f, j); }
        StartRenews(o, g, 0, sockets);
      }
    case SocketOpens(i, ws, now) => if i < |f.conns| { OpenedRenews(o, f, i, ws, now); }
    case SocketMessage(i, ws, msg, now) =>
      if i < |f.conns| && (f.conns[i].ws == Some(ws) ==> f.conns[i].open) { MessageRenews(o, f, i, ws, msg, now); }
    case SocketDown(i, ws) => if i < |f.conns| { DownRenews(o, f, i, ws); }
    case Timeout(h, opens) => if h in f.timers { TimerRenews(o, f, h, opens); }
    case HeartbeatTick(now) => if Active(f) { HeartbeatRenews(o, f, 0, now); }
    case StopFeed => StopRenews(f);
  }

  lemma {:induction false} RunRenews(o: Options, relays: seq<string>, steps: seq<Step>)
    ensures Renewing(Run(o, NewFeed(relays), steps))
  {
    if steps != [] {
      RunKeepsInv(o, relays, steps[..|steps| - 1]);
      RunRenews(o, relays, steps[..|steps| - 1]);
      StepRenews(o, Run(o, NewFeed(relays), steps[..|steps| - 1]), Last(steps));
    }
  }

  /**
   * In every reachable state each open connection has a subscription on its socket
   * that the relay serves, or a timer is pending that will send a new one on that
   * very socket.
   */
  lemma OpenIsServed(o: Options, relays: seq<string>, steps: seq<Step>, i: nat)
    requires var f := Run(o, NewFeed(relays), steps); i < |f.conns| && f.conns[i].open
    ensures var f := Run(o, NewFeed(relays), steps);
            && f.conns[i].ws.Some?
            && (Serves(f.trace, i, f.conns[i].ws.value)
                || exists h :: h in f.timers && f.timers[h] == Resubscribe(i, f.conns[i].ws.value))
  {
    var f := Run(o, NewFeed(relays), steps);
    RunKeepsInv(o, relays, steps);
    RunRenews(o, relays, steps);
    assert ConnOk(f, i) && Renewed(f, i);
    if Unclosed(f.trace, i) {
      UnclosedServes(f.trace, i, f.conns[i].ws.value);
    }
  }

  /** No subscription of the trace has this id. */
  ghost predicate Unused(trace: seq<Note>, sub: nat) {
    forall m :: 0 <= m < |trace| && trace[m].Subscribed? ==> trace[m].sub != sub
  }

  /** A REQ with a new id is sent to relay i on socket ws, before anything else. */
  ghost predicate SendsReq(f: Feed, g: Feed, i: nat, ws: nat) {
    exists sub :: Unused(f.trace, sub) && f.trace + [Subscribed(i, ws, sub)] <= g.trace
  }

  lemma SubscribeSends(f: Feed, i: nat, ws: nat)
    requires i < |f.conns| && IdsUsed(f)
    ensures SendsReq(f, Subscribe(f, i, ws), i, ws)
  {
    SubscribeDeals(f, i, ws);
    assert Unused(f.trace, f.nextId);
  }

  /** A socket that opens, if it is still the current one, is sent a REQ at once. */
  lemma OpenSubscribes(o: Options, relays: seq<string>, steps: seq<Step>, i: nat, ws: nat, now: int)
    requires var f := Run(o, NewFeed(relays), steps); i < |f.conns| && f.conns[i].ws == Some(ws)
    ensures var f := Run(o, NewFeed(relays), steps); SendsReq(f, Next(o, f, SocketOpens(i, ws, now)), i, ws)
  {
    var f := Run(o, NewFeed(relays), steps);
    RunRenews(o, relays, steps);
    SubscribeSends(SetConn(f, i, f.conns[i].(open := true, lastRx := now)), i, ws);
  }

  /**
   * A resubscription that fires while its socket is the current, open one is a REQ
   * with a new id on it; for a socket that is gone nothing is sent.
   */
  lemma TimerSubscribes(o: Options, relays: seq<string>, steps: seq<Step>, h: nat, opens: bool, i: nat, ws: nat)
    requires var f := Run(o, NewFeed(relays), steps); h in f.timers && f.timers[h] == Resubscribe(i, ws)
    ensures var f := Run(o, NewFeed(relays), steps);
            && i < |f.conns|
            && if f.conns[i].open && f.conns[i].ws == Some(ws) then SendsReq(f, Next(o, f, Timeout(h, opens)), i, ws)
               else Next(o, f, Timeout(h, opens)).trace == f.trace
  {
    var f := Run(o, NewFeed(relays), steps);
    RunKeepsInv(o, relays, steps);
    RunRenews(o, relays, steps);
    if f.conns[i].open && f.conns[i].ws == Some(ws) {
      SubscribeSends(SetConn(f, i, f.conns[i].(timer := None)).(timers := f.timers - {h}), i, ws);
    }
  }

  /** A reconnect that fires opens a new socket, or waits again if none can be made. */
  lemma TimerReconnects(o: Options, relays: seq<string>, steps: seq<Step>, h: nat, opens: bool, i: nat)
    requires var f := Run(o, NewFeed(relays), steps); h in f.timers && f.timers[h] == Reconnect(i)
    ensures var f := Run(o, NewFeed(relays), steps);
            var g := Next(o, f, Timeout(h, opens));
            && i < |f.conns| == |g.conns|
            && (if opens then
                  g.conns[i].ws == Some(f.nextSocket) && g.trace == f.trace + [Connected(i, f.nextSocket)]
                else
                  g.conns[i].ws.None? && |g.trace| == |f.trace| + 1 && f.trace <= g.trace && Last(g.trace).Waits?
                  && Last(g.trace).conn == i && Last(g.trace).why == Reconnecting)
  {
    RunKeepsInv(o, relays, steps);
    FiredTimerGone(o, Run(o, NewFeed(relays), steps), h);
  }

  // -------------------------------------------------------------- start, loss and stop

  lemma {:induction false} StartFromConnects(o: Options, f: Feed, k: nat, sockets: seq<bool>, i: nat)
    requires k <= |f.conns| == |sockets| && i < |f.conns| && !f.stopped
    ensures var g := StartFrom(o, f, k, sockets);
            && |g.conns| == |f.conns| && g.started == f.started && !g.stopped && f.trace <= g.trace
            && if i >= k && sockets[i] then g.conns[i].ws.Some? && Connected(i, g.conns[i].ws.value) in g.trace
               else g.conns[i].ws == f.conns[i].ws
    decreases |f.conns| - k
  {
    if k < |f.conns| {
      var c := Connect(o, f, k, sockets[k]);
      StartFromConnects(o, c, k + 1, sockets, i);
      if i == k && sockets[i] {
        assert Last(c.trace) == Connected(i, f.nextSocket) && c.trace[|f.trace|] in c.trace;
      }
    }
  }

  /** Starting opens a socket for every relay, or waits to try again where none can be made. */
  lemma StartConnects(o: Options, relays: seq<string>, steps: seq<Step>, sockets: seq<bool>, i: nat)
    requires var f := Run(o, NewFeed(relays), steps); !f.started && !f.stopped && |sockets| == |f.conns| && i < |f.conns|
    ensures var g := Next(o, Run(o, NewFeed(relays), steps), Start(sockets));
            && g.started && !g.stopped && i < |g.conns|
            && if sockets[i] then g.conns[i].ws.Some? && Connected(i, g.conns[i].ws.value) in g.trace
               else g.conns[i].ws.None? && exists h :: h in g.timers && g.timers[h] == Reconnect(i)
  {
    var f := Run(o, NewFeed(relays), steps);
    RunKeepsInv(o, relays, steps);
    StartFromConnects(o, f.(started := true), 0, sockets, i);
    RunsInOrder(o, NewFeed(relays), steps, Start(sockets));
    NeverStranded(o, relays, steps + [Start(sockets)]);
  }

  /**
   * A current socket that goes down is let go of with what it was good for, and a
   * reconnect is set; of any other only the note is kept.
   */
  lemma LostSocketIsReplaced(o: Options, relays: seq<string>, steps: seq<Step>, i: nat, ws: nat)
    requires i < |Run(o, NewFeed(relays), steps).conns|
    ensures var f := Run(o, NewFeed(relays), steps);
            var g := Next(o, f, SocketDown(i, ws));
            && i < |g.conns|
            && if f.conns[i].ws == Some(ws) then
                 && g.conns[i].ws.None? && !g.conns[i].open && !g.conns[i].eose && g.conns[i].hbId == 0
                 && exists h :: h in g.timers && g.timers[h] == Reconnect(i)
               else g == f.(trace := f.trace + [Down(i, ws)])
  {
    var f := Run(o, NewFeed(relays), steps);
    RunKeepsInv(o, relays, steps);
    assert ConnOk(f, i);
    if f.conns[i].ws == Some(ws) {
      DroppedKeeps(o, f, i, ws);
      RetryKeeps(o, Dropped(f, i, ws), i);
      RunsInOrder(o, NewFeed(relays), steps, SocketDown(i, ws));
      NeverStranded(o, relays, steps + [SocketDown(i, ws)]);
    }
  }

  /** Stopping lets every socket go and clears every timer. */
  lemma StopLetsGo(o: Options, relays: seq<string>, steps: seq<Step>, i: nat)
    requires i < |Run(o, NewFeed(relays), steps).conns|
    ensures var g := Next(o, Run(o, NewFeed(relays), steps), StopFeed);
            && g.stopped && g.timers == map[] && i < |g.conns|
            && g.conns[i].ws.None? && !g.conns[i].open && !g.conns[i].eose && Stopped in g.trace
  {
    var f := Run(o, NewFeed(relays), steps);
    RunsInOrder(o, NewFeed(relays), steps, StopFeed);
    NeverStranded(o, relays, steps + [StopFeed]);
    assert (f.trace + [Stopped])[|f.trace|] == Stopped;
  }
}
