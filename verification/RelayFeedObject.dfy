/**
 * RelayFeed as an object whose handlers change its fields in place. What a
 * socket, a timer or the owner calls is one step of the machine in RelayFeed:
 * it takes the object from one valid state to the next and makes exactly the
 * callbacks of that step. So in whatever order the handlers are called, the
 * object's fields tell the truth about its relays.
 */
module RelayFeedObject {
  import opened Basics
  import opened RelayFeed
  import opened RelayFeedSafety
  import opened RelayFeedCallbacks

  /** g is f after `step`, with its callbacks made. */
  ghost predicate Did(o: Options, f: Feed, g: Feed, step: Step) {
    g == Next(o, f, step) && Callbacks(g.trace) == Callbacks(f.trace) + Delivered(f, step) + Changed(f, g)
  }

  lemma StepDone(o: Options, f: Feed, step: Step)
    requires Inv(o, f)
    ensures Inv(o, Next(o, f, step)) && Did(o, f, Next(o, f, step), step)
  {
    StepKeepsInv(o, f, step);
    CallbacksExactly(o, f, step);
  }

  class FeedObject {
    const opts: Options
    var conns: seq<Conn>
    var started: bool
    var stopped: bool
    var last: bool
    var timers: map<nat, Timer>
    var nextSocket: nat
    var nextId: nat
    var nextTimer: nat
    var trace: seq<Note>

    constructor (relays: seq<string>, opts: Options)
      ensures Valid() && View() == NewFeed(relays) && this.opts == opts
    {
      this.opts := opts;
      conns := NewFeed(relays).conns;
      started, stopped, last, timers := false, false, false, map[];
      nextSocket, nextId, nextTimer, trace := 0, 1, 0, [];
      new;
      RunKeepsInv(opts, relays, []);
    }

    function View(): Feed
      reads this
    {
      Feed(conns, started, stopped, last, timers, nextSocket, nextId, nextTimer, trace)
    }

    ghost predicate Valid()
      reads this
    {
      Inv(opts, View())
    }

    // ---------------------------------------------------------------- what others call

    /** all_caught_up: true exactly when on every relay a real EOSE of its current subscription stands. */
    method IsAllCaughtUp() returns (all: bool)
      requires Valid()
      ensures all <==> |conns| > 0 && forall i :: 0 <= i < |conns| ==> CaughtUpByTrace(trace, i)
    {
      FieldsAreReal(opts, View());
      all := |conns| > 0;
      for i := 0 to |conns|
        invariant all <==> |conns| > 0 && forall k :: 0 <= k < i ==> conns[k].CaughtUp()
      {
        all := all && conns[i].open && conns[i].eose;
      }
    }

    method Start(sockets: seq<bool>)
      requires Valid() && !started && !stopped && |sockets| == |conns|
      modifies this
      ensures Valid() && Did(opts, old(View()), View(), Step.Start(sockets))
    {
      StepDone(opts, View(), Step.Start(sockets));
      started := true;
      ConnectAll(sockets);
    }

    method OnOpen(i: nat, ws: nat, now: int)
      requires Valid() && i < |conns|
      modifies this
      ensures Valid() && Did(opts, old(View()), View(), SocketOpens(i, ws, now))
    {
      StepDone(opts, View(), SocketOpens(i, ws, now));
      if conns[i].ws == Some(ws) {
        conns := conns[i := conns[i].(open := true, lastRx := now)];
        Subscribe(i, ws);
      }
    }

    /** A current socket has opened by the time it delivers. */
    method OnMessage(i: nat, ws: nat, msg: Message, now: int)
      requires Valid() && i < |conns| && (conns[i].ws == Some(ws) ==> conns[i].open)
      modifies this
      ensures Valid() && Did(opts, old(View()), View(), SocketMessage(i, ws, msg, now))
    {
      StepDone(opts, View(), SocketMessage(i, ws, msg, now));
      trace := trace + [Got(i, ws, msg)];
      if conns[i].ws != Some(ws) {
        return;
      }
      conns := conns[i := conns[i].(lastRx := now)];
      if msg.Junk? {
        return;
      }
      if msg.id == conns[i].hbId {
        if msg.Eose? || msg.Closed? {
          conns := conns[i := conns[i].(hbId := 0)];
          assert conns == old(conns)[i := conns[i]];
        }
      } else if msg.id == conns[i].subId {
        OnVerdict(i, ws, msg);
      }
    }

    method OnDown(i: nat, ws: nat)
      requires Valid() && i < |conns|
      modifies this
      ensures Valid() && Did(opts, old(View()), View(), SocketDown(i, ws))
    {
      StepDone(opts, View(), SocketDown(i, ws));
      trace := trace + [Down(i, ws)];
      if conns[i].ws == Some(ws) {
        Lose(i);
      }
    }

    method OnTimeout(h: nat, opens: bool)
      requires Valid() && h in timers
      modifies this
      ensures Valid() && Did(opts, old(View()), View(), Timeout(h, opens))
    {
      StepDone(opts, View(), Timeout(h, opens));
      var t := timers[h];
      timers := timers - {h};
      conns := conns[t.conn := conns[t.conn].(timer := None)];
      if t.Reconnect? {
        Connect(t.conn, opens);
      } else if conns[t.conn].open && conns[t.conn].ws == Some(t.ws) {
        Subscribe(t.conn, t.ws);
      }
    }

    method OnHeartbeat(now: int)
      requires Valid() && started && !stopped
      modifies this
      ensures Valid() && Did(opts, old(View()), View(), HeartbeatTick(now))
    {
      StepDone(opts, View(), HeartbeatTick(now));
      ProbeAll(now);
    }

    method Stop()
      requires Valid()
      modifies this
      ensures Valid() && Did(opts, old(View()), View(), StopFeed) && timers == map[]
    {
      StopKeeps(opts, View());
      StepDone(opts, View(), StopFeed);
      stopped := true;
      LetGoOfAll();
      trace := trace + [Stopped];
      Emit();
    }

    // -------------------------------------------------------------------- their parts

    method Emit()
      modifies this`last, this`trace
      ensures View() == RelayFeed.Emit(old(View()))
    {
      var now := AllCaughtUp(conns);
      if now != last {
        last := now;
        trace := trace + [OnState(now)];
      }
    }

    method Schedule(i: nat, t: Timer)
      requires i < |conns|
      modifies this`conns, this`timers, this`nextTimer
      ensures View() == RelayFeed.Schedule(old(View()), i, t)
    {
      if conns[i].timer.Some? {
        timers := timers - {conns[i].timer.value};
      }
      timers := timers[nextTimer := t];
      conns := conns[i := conns[i].(timer := Some(nextTimer))];
      nextTimer := nextTimer + 1;
    }

    method Retry(i: nat)
      requires i < |conns|
      modifies this
      ensures View() == RelayFeed.Retry(opts, old(View()), i)
    {
      if !stopped {
        var wait := Backoff(opts, conns[i].attempt);
        conns := conns[i := conns[i].(attempt := conns[i].attempt + 1)];
        trace := trace + [Waits(i, Reconnecting, wait)];
        Schedule(i, Reconnect(i));
      }
    }

    method ResubscribeLater(i: nat, ws: nat)
      requires i < |conns|
      modifies this
      ensures View() == RelayFeed.Schedule(Defer(opts, old(View()), i, Resubscribing), i, Resubscribe(i, ws))
    {
      var wait := Backoff(opts, conns[i].closedN);
      conns := conns[i := conns[i].(closedN := conns[i].closedN + 1)];
      trace := trace + [Waits(i, Resubscribing, wait)];
      Schedule(i, Resubscribe(i, ws));
    }

    method Connect(i: nat, opens: bool)
      requires i < |conns|
      modifies this
      ensures View() == RelayFeed.Connect(opts, old(View()), i, opens)
    {
      if stopped {
        return;
      }
      if !opens {
        Retry(i);
        return;
      }
      conns := conns[i := conns[i].(ws := Some(nextSocket))];
      trace := trace + [Connected(i, nextSocket)];
      nextSocket := nextSocket + 1;
    }

    method ConnectAll(sockets: seq<bool>)
      requires |sockets| == |conns|
      modifies this
      ensures View() == StartFrom(opts, old(View()), 0, sockets)
    {
      for i := 0 to |sockets|
        invariant |conns| == |sockets|
        invariant StartFrom(opts, View(), i, sockets) == StartFrom(opts, old(View()), 0, sockets)
      {
        Connect(i, sockets[i]);
      }
    }

    method Subscribe(i: nat, ws: nat)
      requires i < |conns|
      modifies this
      ensures View() == RelayFeed.Subscribe(old(View()), i, ws)
    {
      conns := conns[i := conns[i].(eose := false, subId := nextId)];
      trace := trace + [Subscribed(i, ws, nextId)];
      nextId := nextId + 1;
      Emit();
    }

    /** What a relay says of the current subscription. */
    method OnVerdict(i: nat, ws: nat, msg: Message)
      requires i < |conns| && !msg.Junk?
      modifies this
      ensures View() == Verdict(opts, old(View()), i, ws, msg)
    {
      match msg
      case Event(_) =>
        trace := trace + [OnEvent(i, conns[i].subId)];
      case Eose(_) =>
        conns := conns[i := conns[i].(eose := true, attempt := 0, closedN := 0)];
        trace := trace + [OnCaughtUp(i)];
        Emit();
      case Closed(_) =>
        conns := conns[i := conns[i].(eose := false)];
        Emit();
        ResubscribeLater(i, ws);
      case Other(_) =>
    }

    method Lose(i: nat)
      requires i < |conns|
      modifies this
      ensures View() == RelayFeed.Lose(opts, old(View()), i)
    {
      conns := conns[i := conns[i].(ws := None, open := false, eose := false, hbId := 0)];
      Emit();
      Retry(i);
    }

    method ProbeAll(now: int)
      modifies this
      ensures View() == Heartbeat(opts, old(View()), 0, now)
    {
      for i := 0 to |conns|
        invariant |conns| == |old(conns)|
        invariant Heartbeat(opts, View(), i, now) == Heartbeat(opts, old(View()), 0, now)
      {
        ProbeOne(i, now);
      }
    }

    method ProbeOne(i: nat, now: int)
      requires i < |conns|
      modifies this
      ensures View() == Probe(opts, old(View()), i, now)
    {
      var c := conns[i];
      if c.open && c.ws.Some? {
        if now - c.lastRx > opts.idleMs {
          trace := trace + [Down(i, c.ws.value)];
          Lose(i);
        } else if c.hbId == 0 {
          conns := conns[i := c.(hbId := nextId)];
          nextId := nextId + 1;
        }
      }
    }

    method LetGoOfAll()
      modifies this`conns, this`timers
      ensures conns == LetGoAll(old(conns)) && timers == old(timers) - TimersOf(old(conns), |old(conns)|)
    {
      for i := 0 to |conns|
        invariant |conns| == |old(conns)|
        invariant forall k :: 0 <= k < |conns| ==> conns[k] == if k < i then LetGo(old(conns)[k]) else old(conns)[k]
        invariant timers == old(timers) - TimersOf(old(conns), i)
      {
        if conns[i].timer.Some? {
          timers := timers - {conns[i].timer.value};
        }
        conns := conns[i := LetGo(conns[i])];
      }
    }
  }
}
