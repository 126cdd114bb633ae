/** Exactly which callbacks a RelayFeed makes, step by step. */
module RelayFeedCallbacks {
  import opened Basics
  import opened RelayFeed
  import opened RelayFeedSafety

  predicate IsCallback(n: Note) {
    n.OnEvent? || n.OnCaughtUp? || n.OnState?
  }

  /** The callbacks among the notes, in order. */
  function Callbacks(trace: seq<Note>): seq<Note> {
    if trace == [] then []
    else Callbacks(trace[..|trace| - 1]) + if IsCallback(Last(trace)) then [Last(trace)] else []
  }

  lemma OneMoreCallback(trace: seq<Note>, n: Note)
    ensures Callbacks(trace + [n]) == Callbacks(trace) + if IsCallback(n) then [n] else []
  {
    assert (trace + [n])[..|trace|] == trace;
  }

  /** onstate is called when, and only when, all_caught_up changed. */
  function Changed(f: Feed, g: Feed): seq<Note> {
    if AllCaughtUp(f.conns) == AllCaughtUp(g.conns) then [] else [OnState(AllCaughtUp(g.conns))]
  }

  /**
   * A message counts only for the socket and subscription that are current by the
   * trace: an event is then delivered, an EOSE reported; nothing else is.
   */
  function Delivered(f: Feed, step: Step): seq<Note> {
    if step.SocketMessage? && !step.msg.Junk? && step.conn < |f.conns| then
      var m := MarkOf(f.trace, step.conn);
      if m.Live? && m.ws == step.ws && m.sub == step.msg.id then
        match step.msg
        case Event(id) => [OnEvent(step.conn, id)]
        case Eose(_) => [OnCaughtUp(step.conn)]
        case _ => []
      else []
    else []
  }

  lemma EmitCalls(f: Feed)
    ensures Callbacks(Emit(f).trace) == Callbacks(f.trace) + if AllCaughtUp(f.conns) == f.last then [] else [OnState(AllCaughtUp(f.conns))]
  {
    OneMoreCallback(f.trace, OnState(AllCaughtUp(f.conns)));
  }

  lemma DeferCalls(o: Options, f: Feed, i: nat, why: Why)
    requires i < |f.conns|
    ensures var g := Defer(o, f, i, why);
            Callbacks(g.trace) == Callbacks(f.trace) && AllCaughtUp(g.conns) == AllCaughtUp(f.conns)
  {
    OneMoreCallback(f.trace, Waits(i, why, Backoff(o, Tries(f.conns[i], why))));
    SameVerdicts(f.conns, Defer(o, f, i, why).conns);
  }

  lemma RetryCalls(o: Options, f: Feed, i: nat)
    requires i < |f.conns|
    ensures Callbacks(Retry(o, f, i).trace) == Callbacks(f.trace)
  {
    DeferCalls(o, f, i, Reconnecting);
  }

  lemma ConnectCalls(o: Options, f: Feed, i: nat, opens: bool)
    requires i < |f.conns|
    ensures Callbacks(Connect(o, f, i, opens).trace) == Callbacks(f.trace)
  {
    RetryCalls(o, f, i);
    OneMoreCallback(f.trace, Connected(i, f.nextSocket));
  }

  /** A note that is no callback, then emit. */
  lemma NoteAndEmitCalls(f: Feed, n: Note)
    requires !IsCallback(n)
    ensures var g := Emit(Note1(f, n));
            Callbacks(g.trace) == Callbacks(f.trace) + (if AllCaughtUp(f.conns) == f.last then [] else [OnState(AllCaughtUp(f.conns))])
            && g.conns == f.conns
  {
    OneMoreCallback(f.trace, n);
    EmitCalls(Note1(f, n));
  }

  lemma SubscribeCalls(f: Feed, i: nat, ws: nat)
    requires i < |f.conns|
    ensures var g := Subscribe(f, i, ws);
            Callbacks(g.trace) == Callbacks(f.trace) + if AllCaughtUp(g.conns) == f.last then [] else [OnState(AllCaughtUp(g.conns))]
  {
    NoteAndEmitCalls(SetConn(f, i, f.conns[i].(eose := false, subId := f.nextId)).(nextId := f.nextId + 1), Subscribed(i, ws, f.nextId));
  }

  lemma LoseCalls(o: Options, f: Feed, i: nat, ws: nat)
    requires i < |f.conns| && f.last == AllCaughtUp(f.conns)
    ensures var g := Lose(o, Note1(f, Down(i, ws)), i);
            !AllCaughtUp(g.conns) && Callbacks(g.trace) == Callbacks(f.trace) + Changed(f, g)
  {
    var g := Note1(f, Down(i, ws));
    OneMoreCallback(f.trace, Down(i, ws));
    LostIsDown(o, g, i);
    var h := SetConn(g, i, g.conns[i].(ws := None, open := false, eose := false, hbId := 0));
    assert !h.conns[i].CaughtUp();
    EmitCalls(h);
    RetryCalls(o, Emit(h), i);
  }

  lemma EoseCalls(o: Options, f: Feed, i: nat, ws: nat, msg: Message, now: int)
    requires Inv(o, f) && i < |f.conns| && f.conns[i].ws == Some(ws) && f.conns[i].open && msg == Eose(f.conns[i].subId)
    ensures var g := MessageIn(o, f, i, ws, msg, now);
            Callbacks(g.trace) == Callbacks(f.trace) + [OnCaughtUp(i)] + Changed(f, g)
  {
    assert ConnOk(f, i);
    EoseIs(o, f, i, ws, msg, now);
    var h := SetConn(Note1(f, Got(i, ws, msg)), i, f.conns[i].(lastRx := now, eose := true, attempt := 0, closedN := 0));
    OneMoreCallback(f.trace, Got(i, ws, msg));
    OneMoreCallback(h.trace, OnCaughtUp(i));
    EmitCalls(Note1(h, OnCaughtUp(i)));
  }

  lemma ClosedCalls(o: Options, f: Feed, i: nat, ws: nat, msg: Message, now: int)
    requires Inv(o, f) && i < |f.conns| && f.conns[i].ws == Some(ws) && f.conns[i].open && msg == Closed(f.conns[i].subId)
    ensures var g := MessageIn(o, f, i, ws, msg, now); Callbacks(g.trace) == Callbacks(f.trace) + Changed(f, g)
  {
    assert ConnOk(f, i);
    ClosedIs(o, f, i, ws, msg, now);
    var h := SetConn(f, i, f.conns[i].(lastRx := now, eose := false));
    NoteAndEmitCalls(h, Got(i, ws, msg));
    assert SetConn(Note1(f, Got(i, ws, msg)), i, h.conns[i]) == Note1(h, Got(i, ws, msg));
    var e := Emit(Note1(h, Got(i, ws, msg)));
    var b := Defer(o, e, i, Resubscribing);
    DeferCalls(o, e, i, Resubscribing);
    SameVerdicts(b.conns, Schedule(b, i, Resubscribe(i, ws)).conns);
  }

  lemma EventCalls(o: Options, f: Feed, i: nat, ws: nat, msg: Message, now: int)
    requires Inv(o, f) && i < |f.conns| && f.conns[i].ws == Some(ws) && f.conns[i].open && msg == Event(f.conns[i].subId)
    ensures var g := MessageIn(o, f, i, ws, msg, now);
            Callbacks(g.trace) == Callbacks(f.trace) + [OnEvent(i, msg.id)] && AllCaughtUp(g.conns) == AllCaughtUp(f.conns)
  {
    assert ConnOk(f, i);
    OneMoreCallback(f.trace, Got(i, ws, msg));
    OneMoreCallback(Note1(f, Got(i, ws, msg)).trace, OnEvent(i, msg.id));
    SameVerdicts(f.conns, MessageIn(o, f, i, ws, msg, now).conns);
  }

  /** What is delivered, by the connection's own fields. */
  lemma DeliveredByFields(o: Options, f: Feed, i: nat, ws: nat, msg: Message, now: int)
    requires Inv(o, f) && i < |f.conns|
    ensures var c := f.conns[i];
            Delivered(f, SocketMessage(i, ws, msg, now)) ==
              if c.open && c.ws == Some(ws) && msg == Event(c.subId) then [OnEvent(i, msg.id)]
              else if c.open && c.ws == Some(ws) && msg == Eose(c.subId) then [OnCaughtUp(i)]
              else []
  {
    assert ConnOk(f, i);
  }

  lemma MessageCalls(o: Options, f: Feed, i: nat, ws: nat, msg: Message, now: int)
    requires Inv(o, f) && i < |f.conns| && (f.conns[i].ws == Some(ws) ==> f.conns[i].open)
    ensures var g := MessageIn(o, f, i, ws, msg, now);
            Callbacks(g.trace) == Callbacks(f.trace) + Delivered(f, SocketMessage(i, ws, msg, now)) + Changed(f, g)
  {
    var c := f.conns[i];
    DeliveredByFields(o, f, i, ws, msg, now);
    if c.ws == Some(ws) && msg == Eose(c.subId) {
      EoseCalls(o, f, i, ws, msg, now);
    } else if c.ws == Some(ws) && msg == Closed(c.subId) {
      ClosedCalls(o, f, i, ws, msg, now);
    } else if c.ws == Some(ws) && msg == Event(c.subId) {
      EventCalls(o, f, i, ws, msg, now);
    } else {
      IdleMessage(o, f, i, ws, msg, now);
      OneMoreCallback(f.trace, Got(i, ws, msg));
    }
  }

  /** Any other message leaves every verdict as it is. */
  lemma IdleMessage(o: Options, f: Feed, i: nat, ws: nat, msg: Message, now: int)
    requires Inv(o, f) && i < |f.conns|
    requires f.conns[i].ws == Some(ws) ==> !msg.Other? ==> msg.Junk? || msg.id != f.conns[i].subId
    ensures var g := MessageIn(o, f, i, ws, msg, now);
            g.trace == f.trace + [Got(i, ws, msg)] && AllCaughtUp(g.conns) == AllCaughtUp(f.conns)
  {
    assert ConnOk(f, i);
    SameVerdicts(f.conns, MessageIn(o, f, i, ws, msg, now).conns);
  }

  lemma TimerCalls(o: Options, f: Feed, h: nat, opens: bool)
    requires Inv(o, f) && h in f.timers
    ensures var g := TimerFires(o, f, h, opens); Callbacks(g.trace) == Callbacks(f.trace) + Changed(f, g)
  {
    var i := f.timers[h].conn;
    var g := SetConn(f, i, f.conns[i].(timer := None)).(timers := f.timers - {h});
    SameVerdicts(f.conns, g.conns);
    if f.timers[h].Reconnect? {
      ConnectCalls(o, g, i, opens);
      SameVerdicts(g.conns, Connect(o, g, i, opens).conns);
    } else if g.conns[i].open && g.conns[i].ws == Some(f.timers[h].ws) {
      SubscribeCalls(g, i, f.timers[h].ws);
    }
  }

  lemma ProbeCalls(o: Options, f: Feed, i: nat, now: int)
    requires Inv(o, f) && Active(f) && i < |f.conns|
    ensures var p := Probe(o, f, i, now); Callbacks(p.trace) == Callbacks(f.trace) + Changed(f, p)
  {
    var c, p := f.conns[i], Probe(o, f, i, now);
    assert ConnOk(f, i);
    if c.open && now - c.lastRx > o.idleMs {
      LoseCalls(o, f, i, c.ws.value);
    } else {
      SameVerdicts(f.conns, p.conns);
    }
  }

  lemma {:induction false} HeartbeatCalls(o: Options, f: Feed, i: nat, now: int)
    requires Inv(o, f) && Active(f) && i <= |f.conns|
    ensures var g := Heartbeat(o, f, i, now);
            Callbacks(g.trace) == Callbacks(f.trace) + Changed(f, g) && (AllCaughtUp(g.conns) ==> AllCaughtUp(f.conns))
    decreases |f.conns| - i
  {
    if i < |f.conns| {
      var p := Probe(o, f, i, now);
      ProbeCalls(o, f, i, now);
      ProbeKeeps(o, f, i, now);
      HeartbeatCalls(o, p, i + 1, now);
      ChangesAdd(f, p, Heartbeat(o, p, i + 1, now));
    }
  }

  /** Verdicts that only fall change at most once. */
  lemma ChangesAdd(f: Feed, g: Feed, h: Feed)
    requires (AllCaughtUp(g.conns) ==> AllCaughtUp(f.conns)) && (AllCaughtUp(h.conns) ==> AllCaughtUp(g.conns))
    ensures Changed(f, g) + Changed(g, h) == Changed(f, h)
  {
  }

  lemma {:induction false} StartCalls(o: Options, f: Feed, i: nat, sockets: seq<bool>)
    requires i <= |f.conns| == |sockets|
    ensures Callbacks(StartFrom(o, f, i, sockets).trace) == Callbacks(f.trace)
    decreases |f.conns| - i
  {
    if i < |f.conns| {
      ConnectCalls(o, f, i, sockets[i]);
      StartCalls(o, Connect(o, f, i, sockets[i]), i + 1, sockets);
    }
  }

  lemma StartAllCalls(o: Options, f: Feed, sockets: seq<bool>)
    requires Inv(o, f) && !f.started && !f.stopped && |sockets| == |f.conns|
    ensures var g := StartFrom(o, f.(started := true), 0, sockets); Callbacks(g.trace) == Callbacks(f.trace) + Changed(f, g)
  {
    var g := f.(started := true);
    StartCalls(o, g, 0, sockets);
    forall j | 0 <= j < |g.conns| ensures ConnOk(g, j) { assert ConnOk(f, j); }
    StartKeeps(o, g, 0, sockets);
  }

  lemma OpenedCalls(o: Options, f: Feed, i: nat, ws: nat, now: int)
    requires Inv(o, f) && i < |f.conns|
    ensures var g := Opened(f, i, ws, now); Callbacks(g.trace) == Callbacks(f.trace) + Changed(f, g)
  {
    if f.conns[i].ws == Some(ws) {
      SubscribeCalls(SetConn(f, i, f.conns[i].(open := true, lastRx := now)), i, ws);
    }
  }

  lemma DownCalls(o: Options, f: Feed, i: nat, ws: nat)
    requires Inv(o, f) && i < |f.conns|
    ensures var g := WentDown(o, f, i, ws); Callbacks(g.trace) == Callbacks(f.trace) + Changed(f, g)
  {
    if f.conns[i].ws == Some(ws) { LoseCalls(o, f, i, ws); } else { OneMoreCallback(f.trace, Down(i, ws)); }
  }

  lemma StopCalls(o: Options, f: Feed)
    requires Inv(o, f)
    ensures Callbacks(Stop(f).trace) == Callbacks(f.trace) + Changed(f, Stop(f))
  {
    NoteAndEmitCalls(Halt(f), Stopped);
  }

  /** A message on the current socket before it opened does not happen; by the trace it would not count either. */
  lemma UnopenedCountsNothing(o: Options, f: Feed, i: nat, ws: nat, msg: Message, now: int)
    requires Inv(o, f) && i < |f.conns| && !f.conns[i].open
    ensures Delivered(f, SocketMessage(i, ws, msg, now)) == []
  {
    assert ConnOk(f, i);
  }

  /** Every callback of every step from a reachable state, and their order. */
  lemma CallbacksExactly(o: Options, f: Feed, step: Step)
    requires Inv(o, f)
    ensures var g := Next(o, f, step);
            Callbacks(g.trace) == Callbacks(f.trace) + Delivered(f, step) + Changed(f, g)
  {
    if step.Start? {
      if !f.started && !f.stopped && |step.sockets| == |f.conns| { StartAllCalls(o, f, step.sockets); }
    } else if step.SocketOpens? {
      if step.conn < |f.conns| { OpenedCalls(o, f, step.conn, step.ws, step.now); }
    } else if step.SocketMessage? {
      if step.conn < |f.conns| {
        if f.conns[step.conn].ws == Some(step.ws) && !f.conns[step.conn].open {
          UnopenedCountsNothing(o, f, step.conn, step.ws, step.msg, step.now);
        } else {
          MessageCalls(o, f, step.conn, step.ws, step.msg, step.now);
        }
      }
    } else if step.SocketDown? {
      if step.conn < |f.conns| { DownCalls(o, f, step.conn, step.ws); }
    } else if step.Timeout? {
      if step.h in f.timers { TimerCalls(o, f, step.h, step.opens); }
    } else if step.HeartbeatTick? {
      if Active(f) { HeartbeatCalls(o, f, 0, step.now); }
    } else {
      StopCalls(o, f);
    }
  }

  lemma StoppedIsDown(o: Options, f: Feed)
    requires Inv(o, f) && f.stopped
    ensures f.timers == map[] && !AllCaughtUp(f.conns)
    ensures forall i :: 0 <= i < |f.conns| ==> f.conns[i].ws.None? && MarkOf(f.trace, i).Gone?
  {
    forall i | 0 <= i < |f.conns|
      ensures f.conns[i].ws.None? && f.conns[i].timer.None? && !f.conns[i].CaughtUp() && MarkOf(f.trace, i).Gone?
    {
      assert ConnOk(f, i);
    }
    assert f.timers.Keys == {};
    assert |f.conns| > 0 ==> !f.conns[0].CaughtUp();
  }

  /** After stop, however the run goes on: no callback is ever made again, and the feed stays stopped. */
  lemma {:induction false} SilentAfterStop(o: Options, f: Feed, steps: seq<Step>)
    requires Inv(o, f) && f.stopped
    ensures var g := Run(o, f, steps); Inv(o, g) && g.stopped && Callbacks(g.trace) == Callbacks(f.trace)
  {
    if steps != [] {
      var g, step := Run(o, f, steps[..|steps| - 1]), Last(steps);
      SilentAfterStop(o, f, steps[..|steps| - 1]);
      StepKeepsInv(o, g, step);
      CallbacksExactly(o, g, step);
      StoppedIsDown(o, g);
      StaysStopped(o, g, step);
      StoppedIsDown(o, Next(o, g, step));
    }
  }

  lemma StaysStopped(o: Options, f: Feed, step: Step)
    requires f.stopped && f.timers == map[] && forall i :: 0 <= i < |f.conns| ==> f.conns[i].ws.None?
    ensures Next(o, f, step).stopped
  {
  }
}
