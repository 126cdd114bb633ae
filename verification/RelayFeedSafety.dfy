/** What holds of a RelayFeed in every reachable state. */
module RelayFeedSafety {
  import opened Basics
  import opened RelayFeed

  // -------------------------------------------------------------------- invariant

  /** Conn i against the trace, the ids in use and its timer. */
  ghost predicate ConnOk(f: Feed, i: nat)
    requires i < |f.conns|
  {
    var c := f.conns[i];
    && (c.open ==> c.ws.Some? && c.subId != 0 && c.subId != c.hbId)
    && (c.eose ==> c.open)
    && MarkOf(f.trace, i) == (if c.open then Live(c.ws.value, c.subId, c.eose) else Gone)
    && c.attempt == WaitsSince(f.trace, i, Reconnecting) && c.closedN == WaitsSince(f.trace, i, Resubscribing)
    && c.subId < f.nextId && c.hbId < f.nextId && (c.ws.Some? ==> c.ws.value < f.nextSocket)
    && (c.timer.Some? ==> c.timer.value in f.timers && f.timers[c.timer.value].conn == i)
    && (c.timer.Some? && f.timers[c.timer.value].Reconnect? ==> c.ws.None?)
    && (f.stopped ==> c.ws.None? && c.timer.None?)
  }

  /** Everything but "never stranded" and the state last reported. */
  ghost predicate Base(o: Options, f: Feed) {
    && (forall i :: 0 <= i < |f.conns| ==> ConnOk(f, i))
    && (forall h :: h in f.timers ==> h < f.nextTimer && f.timers[h].conn < |f.conns| && f.conns[f.timers[h].conn].timer == Some(h))
    && (forall i: nat, why :: i >= |f.conns| ==> WaitsSince(f.trace, i, why) == 0)
    && f.nextId > 0 && WaitsOk(o, f.trace)
  }

  /** Conn i has a current socket, or its reconnect timer is pending. */
  ghost predicate NotStranded(f: Feed, i: nat)
    requires i < |f.conns|
  {
    var c := f.conns[i];
    c.ws.Some? || (c.timer.Some? && c.timer.value in f.timers && f.timers[c.timer.value] == Reconnect(i))
  }

  ghost predicate Inv(o: Options, f: Feed) {
    && Base(o, f) && f.last == AllCaughtUp(f.conns)
    && (f.started && !f.stopped ==> forall i :: 0 <= i < |f.conns| ==> NotStranded(f, i))
    && (!f.started ==> forall i :: 0 <= i < |f.conns| ==> f.conns[i].ws.None? && f.conns[i].timer.None?)
  }

  /** g has dealt with conn i only. */
  ghost predicate Touches(f: Feed, g: Feed, i: nat) {
    && |g.conns| == |f.conns| && g.started == f.started && g.stopped == f.stopped
    && (forall j :: 0 <= j < |f.conns| && j != i ==> g.conns[j] == f.conns[j])
    && (forall h :: h in f.timers && f.timers[h].conn != i ==> h in g.timers && g.timers[h] == f.timers[h])
  }

  // -------------------------------------------------------------- the building blocks

  /** A note that is no verdict on any relay. */
  predicate Silent(n: Note) {
    n.OnState? || n.OnEvent? || n.Connected?
  }

  lemma SilentKeeps(o: Options, f: Feed, n: Note)
    requires Base(o, f) && Silent(n)
    ensures Base(o, Note1(f, n))
  {
    OneMoreNote(o, f.trace, n);
    forall i | 0 <= i < |f.conns| ensures ConnOk(Note1(f, n), i) { assert ConnOk(f, i); }
  }

  lemma EmitKeeps(o: Options, f: Feed)
    requires Base(o, f)
    ensures Base(o, Emit(f)) && Emit(f).(last := f.last, trace := f.trace) == f
    ensures Emit(f).last == AllCaughtUp(f.conns)
  {
    if AllCaughtUp(f.conns) != f.last {
      var g := f.(last := AllCaughtUp(f.conns));
      assert Base(o, g) by {
        forall i | 0 <= i < |f.conns| ensures ConnOk(g, i) { assert ConnOk(f, i); }
      }
      SilentKeeps(o, g, OnState(g.last));
    }
  }

  lemma ScheduleKeeps(o: Options, f: Feed, i: nat, t: Timer)
    requires Base(o, f) && i < |f.conns| && !f.stopped && t.conn == i
    requires t.Reconnect? ==> f.conns[i].ws.None?
    ensures Base(o, Schedule(f, i, t)) && Touches(f, Schedule(f, i, t), i)
    ensures t.Reconnect? ==> NotStranded(Schedule(f, i, t), i)
    ensures Schedule(f, i, t).conns[i].(timer := f.conns[i].timer) == f.conns[i]
    ensures Schedule(f, i, t).last == f.last && Schedule(f, i, t).trace == f.trace
  {
    var g := Schedule(f, i, t);
    assert ConnOk(f, i);
    forall j | 0 <= j < |g.conns| ensures ConnOk(g, j) { assert ConnOk(f, j); }
  }

  lemma SameVerdicts(a: seq<Conn>, b: seq<Conn>)
    requires |a| == |b| && forall j :: 0 <= j < |a| ==> a[j].CaughtUp() == b[j].CaughtUp()
    ensures AllCaughtUp(a) == AllCaughtUp(b)
  {
  }

  /** One more retry of conn i is counted and noted. */
  lemma CountWait(o: Options, f: Feed, i: nat, why: Why)
    requires Base(o, f) && i < |f.conns|
    ensures Base(o, Defer(o, f, i, why))
  {
    var g := Defer(o, f, i, why);
    OneMoreNote(o, f.trace, Waits(i, why, Backoff(o, Tries(f.conns[i], why))));
    assert ConnOk(f, i);
    forall j | 0 <= j < |g.conns| ensures ConnOk(g, j) { assert ConnOk(f, j); }
  }

  lemma RetryKeeps(o: Options, f: Feed, i: nat)
    requires Base(o, f) && i < |f.conns| && f.conns[i].ws.None?
    ensures Base(o, Retry(o, f, i)) && Touches(f, Retry(o, f, i), i)
    ensures !f.stopped ==> NotStranded(Retry(o, f, i), i)
    ensures Retry(o, f, i).last == f.last && AllCaughtUp(Retry(o, f, i).conns) == AllCaughtUp(f.conns)
  {
    if !f.stopped {
      CountWait(o, f, i, Reconnecting);
      ScheduleKeeps(o, Defer(o, f, i, Reconnecting), i, Reconnect(i));
      SameVerdicts(f.conns, Retry(o, f, i).conns);
    }
  }

  lemma ConnectKeeps(o: Options, f: Feed, i: nat, opens: bool)
    requires Base(o, f) && i < |f.conns| && f.conns[i].ws.None? && f.conns[i].timer.None?
    ensures Base(o, Connect(o, f, i, opens)) && Touches(f, Connect(o, f, i, opens), i)
    ensures !f.stopped ==> NotStranded(Connect(o, f, i, opens), i)
    ensures Connect(o, f, i, opens).last == f.last && AllCaughtUp(Connect(o, f, i, opens).conns) == AllCaughtUp(f.conns)
  {
    if !f.stopped && opens {
      var g := SetConn(f, i, f.conns[i].(ws := Some(f.nextSocket))).(nextSocket := f.nextSocket + 1);
      forall j | 0 <= j < |g.conns| ensures ConnOk(g, j) { assert ConnOk(f, j); }
      SilentKeeps(o, g, Connected(i, f.nextSocket));
      SameVerdicts(f.conns, g.conns);
    } else if !f.stopped {
      RetryKeeps(o, f, i);
    }
  }

  /** A note about conn i that turns its mark into what its new fields say. */
  lemma NoteAndSet(o: Options, f: Feed, i: nat, n: Note, c: Conn, nextId: nat)
    requires Base(o, f) && i < |f.conns| && nextId >= f.nextId && !n.Waits? && !n.Stopped? && !n.OnCaughtUp?
    requires forall j: nat, m :: j != i ==> MarkStep(m, n, j) == m
    requires c.attempt == f.conns[i].attempt && c.closedN == f.conns[i].closedN && c.timer == f.conns[i].timer
    requires (c.open ==> c.ws.Some? && c.subId != 0 && c.subId != c.hbId) && (c.eose ==> c.open)
    requires MarkStep(MarkOf(f.trace, i), n, i) == (if c.open then Live(c.ws.value, c.subId, c.eose) else Gone)
    requires c.subId < nextId && c.hbId < nextId && (c.ws == f.conns[i].ws || c.ws.None?)
    ensures Base(o, Note1(SetConn(f, i, c).(nextId := nextId), n))
  {
    var g := Note1(SetConn(f, i, c).(nextId := nextId), n);
    OneMoreNote(o, f.trace, n);
    assert ConnOk(f, i);
    forall j | 0 <= j < |g.conns| ensures ConnOk(g, j) { assert ConnOk(f, j); }
  }

  // --------------------------------------------------------------------- the handlers

  ghost predicate Active(f: Feed) {
    f.started && !f.stopped
  }

  ghost predicate NoneStranded(f: Feed) {
    Active(f) ==> forall i :: 0 <= i < |f.conns| ==> NotStranded(f, i)
  }

  lemma TouchKeepsOthers(f: Feed, g: Feed, i: nat)
    requires i < |f.conns| && Touches(f, g, i) && NoneStranded(f) && (Active(f) ==> NotStranded(g, i))
    requires forall h :: h in f.timers ==> f.timers[h].conn < |f.conns| && f.conns[f.timers[h].conn].timer == Some(h)
    ensures NoneStranded(g)
  {
    if Active(f) {
      forall j | 0 <= j < |g.conns| ensures NotStranded(g, j) { assert NotStranded(f, j); }
    }
  }

  /** After a change to conn i that leaves its socket and timer alone, emit restores the invariant. */
  lemma EmitRestores(o: Options, f: Feed, g: Feed, i: nat)
    requires Inv(o, f) && Base(o, g) && i < |f.conns| == |g.conns|
    requires g.started == f.started && g.stopped == f.stopped && g.timers == f.timers
    requires forall j :: 0 <= j < |f.conns| ==> g.conns[j].ws == f.conns[j].ws && g.conns[j].timer == f.conns[j].timer
    ensures Inv(o, Emit(g))
  {
    EmitKeeps(o, g);
    if Active(f) {
      forall j | 0 <= j < |g.conns| ensures NotStranded(Emit(g), j) { assert NotStranded(f, j); }
    }
  }

  lemma SubscribeKeeps(o: Options, f: Feed, i: nat, ws: nat)
    requires Base(o, f) && i < |f.conns| && f.conns[i].ws == Some(ws) && f.conns[i].open
    ensures Base(o, Subscribe(f, i, ws)) && Touches(f, Subscribe(f, i, ws), i)
    ensures Subscribe(f, i, ws).timers == f.timers && Subscribe(f, i, ws).conns[i].ws == Some(ws)
    ensures Subscribe(f, i, ws).last == AllCaughtUp(Subscribe(f, i, ws).conns)
  {
    assert ConnOk(f, i);
    var c := f.conns[i].(eose := false, subId := f.nextId);
    NoteAndSet(o, f, i, Subscribed(i, ws, f.nextId), c, f.nextId + 1);
    EmitKeeps(o, Note1(SetConn(f, i, c).(nextId := f.nextId + 1), Subscribed(i, ws, f.nextId)));
  }

  /** A socket's opening, as one change of conn i. */
  lemma OpenedIs(f: Feed, i: nat, ws: nat, now: int)
    requires i < |f.conns| && f.conns[i].ws == Some(ws)
    ensures var c := f.conns[i].(open := true, lastRx := now, eose := false, subId := f.nextId);
            Opened(f, i, ws, now) == Emit(Note1(SetConn(f, i, c).(nextId := f.nextId + 1), Subscribed(i, ws, f.nextId)))
  {
    var c := f.conns[i].(open := true, lastRx := now);
    assert SetConn(SetConn(f, i, c), i, c.(eose := false, subId := f.nextId)) == SetConn(f, i, c.(eose := false, subId := f.nextId));
  }

  lemma OpenedKeeps(o: Options, f: Feed, i: nat, ws: nat, now: int)
    requires Inv(o, f) && i < |f.conns|
    ensures Inv(o, Opened(f, i, ws, now))
  {
    if f.conns[i].ws == Some(ws) {
      assert ConnOk(f, i);
      OpenedIs(f, i, ws, now);
      var c := f.conns[i].(open := true, lastRx := now, eose := false, subId := f.nextId);
      var g := Note1(SetConn(f, i, c).(nextId := f.nextId + 1), Subscribed(i, ws, f.nextId));
      NoteAndSet(o, f, i, Subscribed(i, ws, f.nextId), c, f.nextId + 1);
      EmitRestores(o, f, g, i);
    }
  }

  /** Conn i as it is once its connection is lost, noted and reported. */
  function Dropped(f: Feed, i: nat, ws: nat): Feed
    requires i < |f.conns|
  {
    Emit(Note1(SetConn(f, i, f.conns[i].(ws := None, open := false, eose := false, hbId := 0)), Down(i, ws)))
  }

  lemma DroppedKeeps(o: Options, f: Feed, i: nat, ws: nat)
    requires Base(o, f) && i < |f.conns| && f.conns[i].ws == Some(ws)
    ensures var g := Dropped(f, i, ws);
            && Base(o, g) && Touches(f, g, i) && g.conns[i].ws.None? && g.timers == f.timers
            && g.last == AllCaughtUp(g.conns) && Lose(o, Note1(f, Down(i, ws)), i) == Retry(o, g, i)
  {
    assert ConnOk(f, i);
    var c := f.conns[i].(ws := None, open := false, eose := false, hbId := 0);
    NoteAndSet(o, f, i, Down(i, ws), c, f.nextId);
    assert SetConn(f, i, c).(nextId := f.nextId) == SetConn(f, i, c);
    EmitKeeps(o, Note1(SetConn(f, i, c), Down(i, ws)));
  }

  /** Two changes to one conn only are one. */
  lemma TouchesTwice(f: Feed, g: Feed, h: Feed, i: nat)
    requires Touches(f, g, i) && Touches(g, h, i)
    ensures Touches(f, h, i)
  {
  }

  lemma LoseKeeps(o: Options, f: Feed, i: nat, ws: nat)
    requires Base(o, f) && i < |f.conns| && f.conns[i].ws == Some(ws) && NoneStranded(f) && f.started
    ensures var g := Lose(o, Note1(f, Down(i, ws)), i);
            && Base(o, g) && NoneStranded(g) && g.last == AllCaughtUp(g.conns)
            && g.started && |g.conns| == |f.conns| && g.stopped == f.stopped
  {
    var g := Dropped(f, i, ws);
    DroppedKeeps(o, f, i, ws);
    RetryKeeps(o, g, i);
    TouchesTwice(f, g, Retry(o, g, i), i);
    TouchKeepsOthers(f, Retry(o, g, i), i);
  }

  lemma DownKeeps(o: Options, f: Feed, i: nat, ws: nat)
    requires Inv(o, f) && i < |f.conns|
    ensures Inv(o, WentDown(o, f, i, ws))
  {
    if f.conns[i].ws == Some(ws) {
      LoseKeeps(o, f, i, ws);
    } else {
      assert ConnOk(f, i);
      NoteAndSet(o, f, i, Down(i, ws), f.conns[i], f.nextId);
      assert SetConn(f, i, f.conns[i]) == f;
      if Active(f) {
        forall j | 0 <= j < |f.conns| ensures NotStranded(Note1(f, Down(i, ws)), j) { assert NotStranded(f, j); }
      }
    }
  }

  /** The note of a message that changes nothing but the time of the last traffic. */
  lemma GotKeeps(o: Options, f: Feed, i: nat, ws: nat, msg: Message, c: Conn)
    requires Inv(o, f) && i < |f.conns|
    requires c.(lastRx := f.conns[i].lastRx, hbId := f.conns[i].hbId) == f.conns[i] && (c.hbId == f.conns[i].hbId || c.hbId == 0)
    requires f.conns[i].ws == Some(ws) && (msg.Eose? || msg.Closed?) ==> msg.id != f.conns[i].subId
    ensures Inv(o, SetConn(Note1(f, Got(i, ws, msg)), i, c))
  {
    assert ConnOk(f, i);
    NoteAndSet(o, f, i, Got(i, ws, msg), c, f.nextId);
    var g := SetConn(Note1(f, Got(i, ws, msg)), i, c);
    assert g == Note1(SetConn(f, i, c).(nextId := f.nextId), Got(i, ws, msg));
    SameVerdicts(f.conns, g.conns);
    if Active(f) {
      forall j | 0 <= j < |g.conns| ensures NotStranded(g, j) { assert NotStranded(f, j); }
    }
  }

  lemma ResetCount(o: Options, f: Feed, i: nat)
    requires Base(o, f) && i < |f.conns|
    ensures Base(o, Note1(SetConn(f, i, f.conns[i].(attempt := 0, closedN := 0)), OnCaughtUp(i)))
  {
    var g := Note1(SetConn(f, i, f.conns[i].(attempt := 0, closedN := 0)), OnCaughtUp(i));
    OneMoreNote(o, f.trace, OnCaughtUp(i));
    assert ConnOk(f, i);
    forall j | 0 <= j < |g.conns| ensures ConnOk(g, j) { assert ConnOk(f, j); }
  }

  /** A verdict of the relay on the current subscription: note it and set eose. */
  lemma VerdictKeeps(o: Options, f: Feed, i: nat, ws: nat, msg: Message, c: Conn)
    requires Base(o, f) && i < |f.conns| && f.conns[i].ws == Some(ws) && f.conns[i].open
    requires c.(lastRx := f.conns[i].lastRx, eose := f.conns[i].eose) == f.conns[i]
    requires (msg == Eose(c.subId) && c.eose) || (msg == Closed(c.subId) && !c.eose)
    ensures Base(o, SetConn(Note1(f, Got(i, ws, msg)), i, c))
  {
    assert ConnOk(f, i);
    NoteAndSet(o, f, i, Got(i, ws, msg), c, f.nextId);
    assert SetConn(Note1(f, Got(i, ws, msg)), i, c) == Note1(SetConn(f, i, c).(nextId := f.nextId), Got(i, ws, msg));
  }

  /** A real EOSE for the current subscription: the count of reconnects starts again. */
  lemma EoseKeeps(o: Options, f: Feed, i: nat, ws: nat, msg: Message, now: int)
    requires Inv(o, f) && i < |f.conns| && f.conns[i].ws == Some(ws) && f.conns[i].open
    requires msg == Eose(f.conns[i].subId)
    ensures Inv(o, MessageIn(o, f, i, ws, msg, now))
  {
    assert ConnOk(f, i);
    EoseIs(o, f, i, ws, msg, now);
    var c := f.conns[i].(lastRx := now, eose := true);
    var noted := Note1(f, Got(i, ws, msg));
    VerdictKeeps(o, f, i, ws, msg, c);
    ResetCount(o, SetConn(noted, i, c), i);
    var h := Note1(SetConn(noted, i, c.(attempt := 0, closedN := 0)), OnCaughtUp(i));
    assert h == Note1(SetConn(SetConn(noted, i, c), i, c.(attempt := 0, closedN := 0)), OnCaughtUp(i));
    EmitRestores(o, f, h, i);
  }

  lemma ClosedKeeps(o: Options, f: Feed, i: nat, ws: nat, msg: Message, now: int)
    requires Inv(o, f) && i < |f.conns| && f.conns[i].ws == Some(ws) && f.conns[i].open && !f.stopped
    requires msg == Closed(f.conns[i].subId)
    ensures Inv(o, MessageIn(o, f, i, ws, msg, now))
  {
    assert ConnOk(f, i);
    ClosedIs(o, f, i, ws, msg, now);
    var g := SetConn(Note1(f, Got(i, ws, msg)), i, f.conns[i].(lastRx := now, eose := false));
    VerdictKeeps(o, f, i, ws, msg, f.conns[i].(lastRx := now, eose := false));
    EmitRestores(o, f, g, i);
    RescheduleKeeps(o, Emit(g), i, ws);
  }

  lemma RescheduleKeeps(o: Options, f: Feed, i: nat, ws: nat)
    requires Inv(o, f) && i < |f.conns| && f.conns[i].ws == Some(ws) && !f.stopped
    ensures Inv(o, Schedule(Defer(o, f, i, Resubscribing), i, Resubscribe(i, ws)))
  {
    var g := Defer(o, f, i, Resubscribing);
    var r := Schedule(g, i, Resubscribe(i, ws));
    CountWait(o, f, i, Resubscribing);
    ScheduleKeeps(o, g, i, Resubscribe(i, ws));
    SameVerdicts(f.conns, r.conns);
    TouchesTwice(f, g, r, i);
    TouchKeepsOthers(f, r, i);
  }

  lemma EventKeeps(o: Options, f: Feed, i: nat, ws: nat, msg: Message, now: int)
    requires Inv(o, f) && i < |f.conns| && f.conns[i].ws == Some(ws) && f.conns[i].open && msg == Event(f.conns[i].subId)
    ensures Inv(o, MessageIn(o, f, i, ws, msg, now))
  {
    assert ConnOk(f, i);
    var g := SetConn(Note1(f, Got(i, ws, msg)), i, f.conns[i].(lastRx := now));
    GotKeeps(o, f, i, ws, msg, f.conns[i].(lastRx := now));
    SilentKeeps(o, g, OnEvent(i, f.conns[i].subId));
    var r := Note1(g, OnEvent(i, f.conns[i].subId));
    if Active(f) {
      forall j | 0 <= j < |r.conns| ensures NotStranded(r, j) { assert NotStranded(g, j); }
    }
  }

  lemma MessageKeeps(o: Options, f: Feed, i: nat, ws: nat, msg: Message, now: int)
    requires Inv(o, f) && i < |f.conns| && (f.conns[i].ws == Some(ws) ==> f.conns[i].open)
    ensures Inv(o, MessageIn(o, f, i, ws, msg, now))
  {
    assert ConnOk(f, i);
    var c := f.conns[i].(lastRx := now);
    if f.conns[i].ws != Some(ws) {
      GotKeeps(o, f, i, ws, msg, f.conns[i]);
      assert SetConn(Note1(f, Got(i, ws, msg)), i, f.conns[i]) == Note1(f, Got(i, ws, msg));
    } else if !msg.Junk? && msg.id == c.hbId {
      GotKeeps(o, f, i, ws, msg, if msg.Eose? || msg.Closed? then c.(hbId := 0) else c);
    } else if msg.Junk? || msg.id != c.subId || msg.Other? {
      GotKeeps(o, f, i, ws, msg, c);
    } else if msg.Event? {
      EventKeeps(o, f, i, ws, msg, now);
    } else if msg.Eose? {
      EoseKeeps(o, f, i, ws, msg, now);
    } else {
      ClosedKeeps(o, f, i, ws, msg, now);
    }
  }

  /** A timer that fires is gone, and with it only its own conn's. */
  lemma FiredTimerGone(o: Options, f: Feed, h: nat)
    requires Inv(o, f) && h in f.timers
    ensures var i := f.timers[h].conn;
            var g := SetConn(f, i, f.conns[i].(timer := None)).(timers := f.timers - {h});
            && Base(o, g) && Touches(f, g, i) && g.last == AllCaughtUp(g.conns) && g.conns[i].timer.None?
            && Active(f) && (f.timers[h].Reconnect? ==> g.conns[i].ws.None?)
  {
    var i := f.timers[h].conn;
    assert ConnOk(f, i);
    var g := SetConn(f, i, f.conns[i].(timer := None)).(timers := f.timers - {h});
    forall j | 0 <= j < |g.conns| ensures ConnOk(g, j) { assert ConnOk(f, j); }
    SameVerdicts(f.conns, g.conns);
  }

  lemma ReconnectKeeps(o: Options, f: Feed, h: nat, opens: bool)
    requires Inv(o, f) && h in f.timers && f.timers[h].Reconnect?
    ensures Inv(o, TimerFires(o, f, h, opens))
  {
    var i := f.timers[h].conn;
    var g := SetConn(f, i, f.conns[i].(timer := None)).(timers := f.timers - {h});
    FiredTimerGone(o, f, h);
    ConnectKeeps(o, g, i, opens);
    TouchesTwice(f, g, Connect(o, g, i, opens), i);
    TouchKeepsOthers(f, Connect(o, g, i, opens), i);
  }

  lemma ResubscribeKeeps(o: Options, f: Feed, h: nat, opens: bool)
    requires Inv(o, f) && h in f.timers && f.timers[h].Resubscribe?
    ensures Inv(o, TimerFires(o, f, h, opens))
  {
    var i := f.timers[h].conn;
    var g := SetConn(f, i, f.conns[i].(timer := None)).(timers := f.timers - {h});
    FiredTimerGone(o, f, h);
    assert NotStranded(g, i) by { assert NotStranded(f, i) && ConnOk(f, i); }
    TouchKeepsOthers(f, g, i);
    if g.conns[i].open && g.conns[i].ws == Some(f.timers[h].ws) {
      var r := Subscribe(g, i, f.timers[h].ws);
      SubscribeKeeps(o, g, i, f.timers[h].ws);
      TouchesTwice(f, g, r, i);
      TouchKeepsOthers(f, r, i);
    }
  }

  lemma AskKeeps(o: Options, f: Feed, i: nat)
    requires Inv(o, f) && Active(f) && i < |f.conns| && f.conns[i].open && f.conns[i].hbId == 0
    ensures var g := SetConn(f, i, f.conns[i].(hbId := f.nextId)).(nextId := f.nextId + 1);
            Inv(o, g) && Active(g) && AllCaughtUp(g.conns) == AllCaughtUp(f.conns)
  {
    var g := SetConn(f, i, f.conns[i].(hbId := f.nextId)).(nextId := f.nextId + 1);
    forall j | 0 <= j < |g.conns| ensures ConnOk(g, j) && NotStranded(g, j) { assert ConnOk(f, j) && NotStranded(f, j); }
    SameVerdicts(f.conns, g.conns);
  }

  /** A connection that is lost is not caught up, so neither is the feed. */
  lemma LostIsDown(o: Options, f: Feed, i: nat)
    requires i < |f.conns|
    ensures |Lose(o, f, i).conns| == |f.conns| && !Lose(o, f, i).conns[i].CaughtUp() && !AllCaughtUp(Lose(o, f, i).conns)
  {
    var g := Emit(SetConn(f, i, f.conns[i].(ws := None, open := false, eose := false, hbId := 0)));
    assert g.conns[i].open == false;
    assert !Retry(o, g, i).conns[i].open;
  }

  lemma ProbeKeeps(o: Options, f: Feed, i: nat, now: int)
    requires Inv(o, f) && Active(f) && i < |f.conns|
    ensures Inv(o, Probe(o, f, i, now)) && Active(Probe(o, f, i, now))
    ensures AllCaughtUp(Probe(o, f, i, now).conns) ==> AllCaughtUp(f.conns)
  {
    var c := f.conns[i];
    assert ConnOk(f, i);
    if c.open && now - c.lastRx > o.idleMs {
      LoseKeeps(o, f, i, c.ws.value);
      LostIsDown(o, Note1(f, Down(i, c.ws.value)), i);
    } else if c.open && c.hbId == 0 {
      AskKeeps(o, f, i);
    }
  }

  lemma {:induction false} HeartbeatKeeps(o: Options, f: Feed, i: nat, now: int)
    requires Inv(o, f) && Active(f) && i <= |f.conns|
    ensures Inv(o, Heartbeat(o, f, i, now))
    decreases |f.conns| - i
  {
    if i < |f.conns| {
      ProbeKeeps(o, f, i, now);
      HeartbeatKeeps(o, Probe(o, f, i, now), i + 1, now);
    }
  }

  lemma {:induction false} StartKeeps(o: Options, f: Feed, i: nat, sockets: seq<bool>)
    requires Base(o, f) && Active(f) && f.last == AllCaughtUp(f.conns) && i <= |f.conns| == |sockets|
    requires forall j :: 0 <= j < i ==> NotStranded(f, j)
    requires forall j :: i <= j < |f.conns| ==> f.conns[j].ws.None? && f.conns[j].timer.None?
    ensures Inv(o, StartFrom(o, f, i, sockets)) && AllCaughtUp(StartFrom(o, f, i, sockets).conns) == AllCaughtUp(f.conns)
    decreases |f.conns| - i
  {
    if i < |f.conns| {
      var g := Connect(o, f, i, sockets[i]);
      ConnectKeeps(o, f, i, sockets[i]);
      forall j | 0 <= j < i ensures NotStranded(g, j) { assert NotStranded(f, j) && ConnOk(f, j); }
      StartKeeps(o, g, i + 1, sockets);
    }
  }

  lemma StopKeeps(o: Options, f: Feed)
    requires Inv(o, f)
    ensures Inv(o, Stop(f)) && Stop(f).timers == map[]
  {
    var g := Note1(Halt(f), Stopped);
    forall h | h in f.timers ensures h in TimersOf(f.conns, |f.conns|) { TimerIsOf(f.conns, |f.conns|, f.timers[h].conn); }
    assert g.timers == map[];
    OneMoreNote(o, f.trace, Stopped);
    forall j | 0 <= j < |g.conns| ensures ConnOk(g, j) { assert ConnOk(f, j); }
    EmitKeeps(o, g);
  }

  lemma StepKeepsInv(o: Options, f: Feed, step: Step)
    requires Inv(o, f)
    ensures Inv(o, Next(o, f, step))
  {
    match step
    case Start(sockets) =>
      if !f.started && !f.stopped && |sockets| == |f.conns| {
        var g := f.(started := true);
        forall j | 0 <= j < |g.conns| ensures ConnOk(g, j) { assert ConnOk(f, j); }
        StartKeeps(o, g, 0, sockets);
      }
    case SocketOpens(i, ws, now) => if i < |f.conns| { OpenedKeeps(o, f, i, ws, now); }
    case SocketMessage(i, ws, msg, now) =>
      if i < |f.conns| && (f.conns[i].ws == Some(ws) ==> f.conns[i].open) { MessageKeeps(o, f, i, ws, msg, now); }
    case SocketDown(i, ws) => if i < |f.conns| { DownKeeps(o, f, i, ws); }
    case Timeout(h, opens) =>
      if h in f.timers {
        if f.timers[h].Reconnect? { ReconnectKeeps(o, f, h, opens); } else { ResubscribeKeeps(o, f, h, opens); }
      }
    case HeartbeatTick(now) => if Active(f) { HeartbeatKeeps(o, f, 0, now); }
    case StopFeed => StopKeeps(o, f);
  }

  lemma {:induction false} RunKeepsInv(o: Options, relays: seq<string>, steps: seq<Step>)
    ensures Inv(o, Run(o, NewFeed(relays), steps))
  {
    if steps != [] {
      RunKeepsInv(o, relays, steps[..|steps| - 1]);
      StepKeepsInv(o, Run(o, NewFeed(relays), steps[..|steps| - 1]), Last(steps));
    } else if relays != [] {
      assert !NewFeed(relays).conns[0].CaughtUp();
    }
  }

  // ------------------------------------------------------------------ the relays stay

  ghost predicate SameRelays(f: Feed, g: Feed) {
    |g.conns| == |f.conns| && forall i :: 0 <= i < |f.conns| ==> g.conns[i].url == f.conns[i].url
  }

  lemma SetKeepsRelays(f: Feed, i: nat, c: Conn)
    requires i < |f.conns| && c.url == f.conns[i].url
    ensures SameRelays(f, SetConn(f, i, c)) && SameRelays(f, Emit(SetConn(f, i, c)))
  {
  }

  lemma RetryKeepsRelays(o: Options, f: Feed, i: nat)
    requires i < |f.conns|
    ensures SameRelays(f, Retry(o, f, i))
  {
  }

  lemma LoseKeepsRelays(o: Options, f: Feed, i: nat)
    requires i < |f.conns|
    ensures SameRelays(f, Lose(o, f, i))
  {
    var c := f.conns[i].(ws := None, open := false, eose := false, hbId := 0);
    SetKeepsRelays(f, i, c);
    RetryKeepsRelays(o, Emit(SetConn(f, i, c)), i);
  }

  lemma ConnectKeepsRelays(o: Options, f: Feed, i: nat, opens: bool)
    requires i < |f.conns|
    ensures SameRelays(f, Connect(o, f, i, opens))
  {
    RetryKeepsRelays(o, f, i);
  }

  lemma ResubscribeKeepsRelays(o: Options, f: Feed, i: nat, ws: nat)
    requires i < |f.conns|
    ensures SameRelays(f, Schedule(Defer(o, f, i, Resubscribing), i, Resubscribe(i, ws)))
  {
  }

  lemma SubscribeKeepsRelays(f: Feed, i: nat, ws: nat)
    requires i < |f.conns|
    ensures SameRelays(f, Subscribe(f, i, ws))
  {
  }

  /** CLOSED for the current subscription. */
  predicate ClosesSub(f: Feed, i: nat, ws: nat, msg: Message)
    requires i < |f.conns|
  {
    var c := f.conns[i];
    msg.Closed? && c.ws == Some(ws) && msg.id != c.hbId && msg.id == c.subId
  }

  lemma CloseKeepsRelays(o: Options, f: Feed, i: nat, ws: nat, msg: Message, now: int)
    requires i < |f.conns| && ClosesSub(f, i, ws, msg)
    ensures SameRelays(f, MessageIn(o, f, i, ws, msg, now))
  {
    var g, c := Note1(f, Got(i, ws, msg)), f.conns[i].(lastRx := now, eose := false);
    ClosedIs(o, f, i, ws, msg, now);
    SetKeepsRelays(g, i, c);
    ResubscribeKeepsRelays(o, Emit(SetConn(g, i, c)), i, ws);
  }

  lemma MessageKeepsRelays(o: Options, f: Feed, i: nat, ws: nat, msg: Message, now: int)
    requires i < |f.conns|
    ensures SameRelays(f, MessageIn(o, f, i, ws, msg, now))
  {
    if ClosesSub(f, i, ws, msg) {
      CloseKeepsRelays(o, f, i, ws, msg, now);
    } else {
      assert MessageIn(o, f, i, ws, msg, now).conns[..i] == f.conns[..i];
    }
  }

  lemma OpenKeepsRelays(f: Feed, i: nat, ws: nat, now: int)
    requires i < |f.conns|
    ensures SameRelays(f, Opened(f, i, ws, now))
  {
    var c := f.conns[i].(open := true, lastRx := now);
    SetKeepsRelays(f, i, c);
    SubscribeKeepsRelays(SetConn(f, i, c), i, ws);
  }

  lemma TimerKeepsRelays(o: Options, f: Feed, h: nat, opens: bool)
    requires h in f.timers && f.timers[h].conn < |f.conns|
    ensures SameRelays(f, TimerFires(o, f, h, opens))
  {
    var t := f.timers[h];
    var g := SetConn(f, t.conn, f.conns[t.conn].(timer := None)).(timers := f.timers - {h});
    SetKeepsRelays(f, t.conn, f.conns[t.conn].(timer := None));
    if t.Reconnect? {
      ConnectKeepsRelays(o, g, t.conn, opens);
    } else {
      SubscribeKeepsRelays(g, t.conn, t.ws);
    }
  }

  lemma {:induction false} HeartbeatKeepsRelays(o: Options, f: Feed, i: nat, now: int)
    requires i <= |f.conns|
    ensures SameRelays(f, Heartbeat(o, f, i, now))
    decreases |f.conns| - i
  {
    if i < |f.conns| {
      if f.conns[i].ws.Some? {
        LoseKeepsRelays(o, Note1(f, Down(i, f.conns[i].ws.value)), i);
      }
      assert SameRelays(f, Probe(o, f, i, now));
      HeartbeatKeepsRelays(o, Probe(o, f, i, now), i + 1, now);
    }
  }

  lemma {:induction false} StartKeepsRelays(o: Options, f: Feed, i: nat, sockets: seq<bool>)
    requires i <= |f.conns| == |sockets|
    ensures SameRelays(f, StartFrom(o, f, i, sockets))
    decreases |f.conns| - i
  {
    if i < |f.conns| {
      ConnectKeepsRelays(o, f, i, sockets[i]);
      StartKeepsRelays(o, Connect(o, f, i, sockets[i]), i + 1, sockets);
    }
  }

  lemma StepKeepsRelays(o: Options, f: Feed, step: Step)
    ensures SameRelays(f, Next(o, f, step))
  {
    match step
    case Start(sockets) =>
      if !f.started && !f.stopped && |sockets| == |f.conns| { StartKeepsRelays(o, f.(started := true), 0, sockets); }
    case SocketOpens(i, ws, now) => if i < |f.conns| { OpenKeepsRelays(f, i, ws, now); }
    case SocketMessage(i, ws, msg, now) => if i < |f.conns| { MessageKeepsRelays(o, f, i, ws, msg, now); }
    case SocketDown(i, ws) => if i < |f.conns| { LoseKeepsRelays(o, Note1(f, Down(i, ws)), i); }
    case Timeout(h, opens) => if h in f.timers && f.timers[h].conn < |f.conns| { TimerKeepsRelays(o, f, h, opens); }
    case HeartbeatTick(now) => if Active(f) { HeartbeatKeepsRelays(o, f, 0, now); }
    case StopFeed =>
  }

  // ------------------------------------------------------------------ the main results

  /** Where the invariant holds, the connections' fields say exactly what the trace says. */
  lemma FieldsAreReal(o: Options, f: Feed)
    requires Inv(o, f)
    ensures forall i :: 0 <= i < |f.conns| ==> (f.conns[i].CaughtUp() <==> CaughtUpByTrace(f.trace, i))
    ensures AllCaughtUp(f.conns) <==> |f.conns| > 0 && forall i :: 0 <= i < |f.conns| ==> CaughtUpByTrace(f.trace, i)
  {
    forall i | 0 <= i < |f.conns| ensures f.conns[i].CaughtUp() <==> CaughtUpByTrace(f.trace, i) {
      assert ConnOk(f, i);
      MarkIsCaughtUp(f.trace, i);
    }
  }

  /**
   * Caught-up soundness: in every reachable state a relay counts as caught up
   * exactly when the trace says a real EOSE of its current subscription on its
   * current socket stands; and all_caught_up is that for every relay.
   */
  lemma CaughtUpIsReal(o: Options, relays: seq<string>, steps: seq<Step>)
    ensures var f := Run(o, NewFeed(relays), steps);
            && (forall i :: 0 <= i < |f.conns| ==> (f.conns[i].CaughtUp() <==> CaughtUpByTrace(f.trace, i)))
            && (AllCaughtUp(f.conns) <==> |f.conns| > 0 && forall i :: 0 <= i < |f.conns| ==> CaughtUpByTrace(f.trace, i))
            && f.last == AllCaughtUp(f.conns)
  {
    RunKeepsInv(o, relays, steps);
    FieldsAreReal(o, Run(o, NewFeed(relays), steps));
  }

  /**
   * Never stranded: a started, unstopped feed has for every relay a current
   * socket or a pending reconnect, and never two timers for one relay; a stopped
   * feed has no socket and no timer left.
   */
  lemma NeverStranded(o: Options, relays: seq<string>, steps: seq<Step>)
    ensures var f := Run(o, NewFeed(relays), steps);
            && (f.started && !f.stopped ==> forall i :: 0 <= i < |f.conns| ==>
                  f.conns[i].ws.Some? || exists h :: h in f.timers && f.timers[h] == Reconnect(i))
            && (forall h, k :: h in f.timers && k in f.timers && f.timers[h].conn == f.timers[k].conn ==> h == k)
            && (f.stopped ==> f.timers == map[] && forall i :: 0 <= i < |f.conns| ==> f.conns[i].ws.None? && !f.conns[i].CaughtUp())
  {
    var f := Run(o, NewFeed(relays), steps);
    RunKeepsInv(o, relays, steps);
    if f.started && !f.stopped {
      forall i | 0 <= i < |f.conns| ensures f.conns[i].ws.Some? || exists h :: h in f.timers && f.timers[h] == Reconnect(i) {
        assert NotStranded(f, i);
      }
    }
    if f.stopped {
      forall i | 0 <= i < |f.conns| ensures f.conns[i].ws.None? && !f.conns[i].CaughtUp() && f.conns[i].timer.None? { assert ConnOk(f, i); }
      assert f.timers.Keys == {};
    }
  }

  // ------------------------------------------------------------------------ backoff

  lemma {:induction false} Pow2Grows(a: nat, b: nat)
    requires a <= b
    ensures 1 <= Pow2(a) <= Pow2(b)
    decreases b
  {
    if a < b { Pow2Grows(a, b - 1); } else if a > 0 { Pow2Grows(a - 1, a - 1); }
  }

  lemma BackoffGrows(o: Options, a: nat, b: nat)
    requires a <= b
    ensures Backoff(o, a) <= Backoff(o, b) <= o.maxBackoff
  {
    var x, y := Min(a, 10), Min(b, 10);
    Pow2Grows(x, y);
    assert o.minBackoff * Pow2(x) <= o.minBackoff * Pow2(y);
  }

  lemma {:induction false} WaitIsBackoff(o: Options, trace: seq<Note>, k: nat)
    requires WaitsOk(o, trace) && k < |trace| && trace[k].Waits?
    ensures trace[k].wait == Backoff(o, WaitsSince(trace[..k], trace[k].conn, trace[k].why))
  {
    if k < |trace| - 1 {
      var front := trace[..|trace| - 1];
      WaitIsBackoff(o, front, k);
      assert front[..k] == trace[..k];
    }
  }

  lemma {:induction false} WaitsSinceGrows(trace: seq<Note>, i: nat, why: Why, k: nat, l: nat)
    requires k <= l <= |trace| && forall m :: k <= m < l ==> trace[m] != OnCaughtUp(i)
    ensures WaitsSince(trace[..k], i, why) <= WaitsSince(trace[..l], i, why)
    decreases l
  {
    if k < l {
      WaitsSinceGrows(trace, i, why, k, l - 1);
      assert trace[..l][..l - 1] == trace[..l - 1];
    }
  }

  /**
   * Between two real EOSEs of a relay, its waits to reconnect never shrink, nor
   * do its waits to resubscribe after CLOSED, and none exceeds the maximum.
   */
  lemma RetriesBackOff(o: Options, relays: seq<string>, steps: seq<Step>, i: nat, why: Why, k: nat, l: nat)
    requires var trace := Run(o, NewFeed(relays), steps).trace;
             && k < l < |trace| && trace[k].Waits? && trace[l].Waits? && trace[k].conn == trace[l].conn == i
             && trace[k].why == trace[l].why == why && forall m :: k < m < l ==> trace[m] != OnCaughtUp(i)
    ensures var trace := Run(o, NewFeed(relays), steps).trace; trace[k].wait <= trace[l].wait <= o.maxBackoff
  {
    RunKeepsInv(o, relays, steps);
    var trace := Run(o, NewFeed(relays), steps).trace;
    WaitIsBackoff(o, trace, k);
    WaitIsBackoff(o, trace, l);
    WaitsSinceGrows(trace, i, why, k, l);
    BackoffGrows(o, WaitsSince(trace[..k], i, why), WaitsSince(trace[..l], i, why));
  }
}
