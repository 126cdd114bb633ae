/**
 * One subscription kept up on several relays, with a verdict for each of them
 * (src/cinderella/relay-feed.ts). Sockets, subscription and timer ids are fresh
 * numbers; 0 stands for the empty id. Callbacks do not re-enter the feed, and a
 * socket delivers messages only once it has opened.
 */
module RelayFeed {
  import opened Basics

  datatype Options = Options(minBackoff: nat, maxBackoff: nat, idleMs: int)

  datatype Conn = Conn(url: string, ws: Option<nat>, open: bool, eose: bool, subId: nat, hbId: nat,
                       attempt: nat, closedN: nat, lastRx: int, timer: Option<nat>)
  {
    predicate CaughtUp() { open && eose }
  }

  /** A pending setTimeout: reconnect conn, or resubscribe it if `ws` is still its socket. */
  datatype Timer = Reconnect(conn: nat) | Resubscribe(conn: nat, ws: nat)

  datatype Message = Event(id: nat) | Eose(id: nat) | Closed(id: nat) | Other(id: nat) | Junk

  /** What a wait is for: a new socket, or a new subscription after CLOSED. */
  datatype Why = Reconnecting | Resubscribing

  /** Everything that crosses the feed's border, in order. Got and Down are noted for stale sockets too. */
  datatype Note =
    | Connected(conn: nat, ws: nat)
    | Subscribed(conn: nat, ws: nat, sub: nat)
    | Got(conn: nat, ws: nat, msg: Message)
    | Down(conn: nat, ws: nat)
    | Waits(conn: nat, why: Why, wait: nat)   // a retry was scheduled
    | OnEvent(conn: nat, sub: nat)       // callback onevent
    | OnCaughtUp(conn: nat)              // callback oncaughtup
    | OnState(all: bool)                 // callback onstate
    | Stopped

  datatype Feed = Feed(conns: seq<Conn>, started: bool, stopped: bool, last: bool,
                       timers: map<nat, Timer>, nextSocket: nat, nextId: nat, nextTimer: nat, trace: seq<Note>)

  function NewConn(url: string): Conn {
    Conn(url, None, false, false, 0, 0, 0, 0, 0, None)
  }

  function NewFeed(relays: seq<string>): Feed {
    Feed(seq(|relays|, i requires 0 <= i < |relays| => NewConn(relays[i])), false, false, false, map[], 0, 1, 0, [])
  }

  predicate AllCaughtUp(conns: seq<Conn>) {
    |conns| > 0 && forall i :: 0 <= i < |conns| ==> conns[i].CaughtUp()
  }

  function Pow2(n: nat): nat {
    if n == 0 then 1 else 2 * Pow2(n - 1)
  }

  function Backoff(o: Options, n: nat): nat {
    Min(o.maxBackoff, o.minBackoff * Pow2(Min(n, 10)))
  }

  // ------------------------------------------------- what the trace says about a relay

  /** Gone: no live subscription. Live: subscribed on ws as sub; eose: its latest verdict is a real EOSE. */
  datatype Mark = Gone | Live(ws: nat, sub: nat, eose: bool)

  function MarkStep(m: Mark, n: Note, i: nat): Mark {
    match n
    case Subscribed(j, ws, sub) => if j == i then Live(ws, sub, false) else m
    case Got(j, ws, Eose(sub)) => if j == i && m.Live? && m.ws == ws && m.sub == sub then m.(eose := true) else m
    case Got(j, ws, Closed(sub)) => if j == i && m.Live? && m.ws == ws && m.sub == sub then m.(eose := false) else m
    case Down(j, ws) => if j == i && m.Live? && m.ws == ws then Gone else m
    case Stopped => Gone
    case _ => m
  }

  function MarkOf(trace: seq<Note>, i: nat): Mark {
    if trace == [] then Gone else MarkStep(MarkOf(trace[..|trace| - 1], i), Last(trace), i)
  }

  /** Retries of one sort scheduled for relay i since its last real EOSE. */
  function WaitsSince(trace: seq<Note>, i: nat, why: Why): nat {
    if trace == [] then 0
    else
      var n, front := Last(trace), WaitsSince(trace[..|trace| - 1], i, why);
      if n == OnCaughtUp(i) then 0 else if n.Waits? && n.conn == i && n.why == why then front + 1 else front
  }

  /** Every wait is the backoff for the number of such retries since the last real EOSE. */
  predicate WaitsOk(o: Options, trace: seq<Note>) {
    trace == [] ||
    (WaitsOk(o, trace[..|trace| - 1]) &&
     (Last(trace).Waits? ==> Last(trace).wait == Backoff(o, WaitsSince(trace[..|trace| - 1], Last(trace).conn, Last(trace).why))))
  }

  /** The note ends what relay i had on socket ws. */
  predicate Ends(n: Note, i: nat, ws: nat) {
    (n.Subscribed? && n.conn == i) || n == Down(i, ws) || n.Stopped?
  }

  /**
   * Relay i is caught up, by the trace alone: it was subscribed on ws as sub,
   * that socket and subscription were not ended or replaced since, a real EOSE for
   * it came in on that socket, and the relay did not close it afterwards.
   */
  ghost predicate CaughtUpByTrace(trace: seq<Note>, i: nat) {
    exists j, k, ws, sub :: 0 <= j < k < |trace| && EoseStands(trace, i, j, k, ws, sub)
  }

  ghost predicate EoseStands(trace: seq<Note>, i: nat, j: int, k: int, ws: nat, sub: nat)
    requires 0 <= j < k < |trace|
  {
    && trace[j] == Subscribed(i, ws, sub) && trace[k] == Got(i, ws, Eose(sub))
    && (forall m :: j < m < |trace| ==> !Ends(trace[m], i, ws))
    && (forall m :: k < m < |trace| ==> trace[m] != Got(i, ws, Closed(sub)))
  }

  ghost predicate SubStands(trace: seq<Note>, i: nat, j: int, ws: nat, sub: nat)
    requires 0 <= j < |trace|
  {
    trace[j] == Subscribed(i, ws, sub) && forall m :: j < m < |trace| ==> !Ends(trace[m], i, ws)
  }

  lemma {:induction false} MarkIsLiveSub(trace: seq<Note>, i: nat, ws: nat, sub: nat)
    ensures (MarkOf(trace, i).Live? && MarkOf(trace, i).ws == ws && MarkOf(trace, i).sub == sub)
            <==> exists j :: 0 <= j < |trace| && SubStands(trace, i, j, ws, sub)
  {
    if trace != [] {
      var front, n := trace[..|trace| - 1], Last(trace);
      MarkIsLiveSub(front, i, ws, sub);
      if exists j :: 0 <= j < |trace| && SubStands(trace, i, j, ws, sub) {
        var j :| 0 <= j < |trace| && SubStands(trace, i, j, ws, sub);
        if j < |front| { assert SubStands(front, i, j, ws, sub); }
      } else if MarkOf(trace, i).Live? && MarkOf(trace, i).ws == ws && MarkOf(trace, i).sub == sub {
        if n == Subscribed(i, ws, sub) {
          assert SubStands(trace, i, |front|, ws, sub);
        } else {
          var j :| 0 <= j < |front| && SubStands(front, i, j, ws, sub);
          assert SubStands(trace, i, j, ws, sub);
        }
      }
    }
  }

  lemma {:induction false} MarkIsCaughtUp(trace: seq<Note>, i: nat)
    ensures (MarkOf(trace, i).Live? && MarkOf(trace, i).eose) <==> CaughtUpByTrace(trace, i)
  {
    if trace != [] {
      var front, n := trace[..|trace| - 1], Last(trace);
      MarkIsCaughtUp(front, i);
      if CaughtUpByTrace(trace, i) {
        var j, k, ws, sub :| 0 <= j < k < |trace| && EoseStands(trace, i, j, k, ws, sub);
        assert SubStands(trace, i, j, ws, sub) && SubStands(front, i, j, ws, sub);
        MarkIsLiveSub(trace, i, ws, sub);
        MarkIsLiveSub(front, i, ws, sub);
        if k < |front| { assert EoseStands(front, i, j, k, ws, sub); }
      }
      var m := MarkOf(trace, i);
      if m.Live? && m.eose {
        StandingEose(trace, i);
      }
    }
  }

  lemma StandingEose(trace: seq<Note>, i: nat)
    requires trace != [] && MarkOf(trace, i).Live? && MarkOf(trace, i).eose
    requires MarkOf(trace[..|trace| - 1], i).Live? && MarkOf(trace[..|trace| - 1], i).eose ==> CaughtUpByTrace(trace[..|trace| - 1], i)
    ensures CaughtUpByTrace(trace, i)
  {
    if MarkOf(trace[..|trace| - 1], i).eose {
      EoseStillStands(trace, i);
    } else {
      NewEoseStands(trace, i);
    }
  }

  lemma EoseStillStands(trace: seq<Note>, i: nat)
    requires trace != [] && MarkOf(trace, i).Live? && MarkOf(trace, i).eose
    requires var before := MarkOf(trace[..|trace| - 1], i); before.Live? && before.eose && CaughtUpByTrace(trace[..|trace| - 1], i)
    ensures CaughtUpByTrace(trace, i)
  {
    var front := trace[..|trace| - 1];
    var j, k, ws, sub :| 0 <= j < k < |front| && EoseStands(front, i, j, k, ws, sub);
    assert SubStands(front, i, j, ws, sub);
    MarkIsLiveSub(front, i, ws, sub);
    assert EoseStands(trace, i, j, k, ws, sub);
  }

  lemma NewEoseStands(trace: seq<Note>, i: nat)
    requires trace != [] && MarkOf(trace, i).Live? && MarkOf(trace, i).eose
    requires var before := MarkOf(trace[..|trace| - 1], i); before.Live? && !before.eose
    ensures CaughtUpByTrace(trace, i)
  {
    var front, m := trace[..|trace| - 1], MarkOf(trace, i);
    MarkIsLiveSub(front, i, m.ws, m.sub);
    var j :| 0 <= j < |front| && SubStands(front, i, j, m.ws, m.sub);
    assert EoseStands(trace, i, j, |front|, m.ws, m.sub);
  }

  // -------------------------------------------------------------------- the handlers

  function Note1(f: Feed, n: Note): Feed {
    f.(trace := f.trace + [n])
  }

  /** What one more note means for every relay. */
  lemma OneMoreNote(o: Options, trace: seq<Note>, n: Note)
    ensures forall i: nat :: MarkOf(trace + [n], i) == MarkStep(MarkOf(trace, i), n, i)
    ensures forall i: nat, why :: WaitsSince(trace + [n], i, why) ==
              if n == OnCaughtUp(i) then 0 else WaitsSince(trace, i, why) + if n.Waits? && n.conn == i && n.why == why then 1 else 0
    ensures WaitsOk(o, trace + [n]) <==> WaitsOk(o, trace) && (n.Waits? ==> n.wait == Backoff(o, WaitsSince(trace, n.conn, n.why)))
  {
    assert (trace + [n])[..|trace|] == trace && Last(trace + [n]) == n;
  }

  function SetConn(f: Feed, i: nat, c: Conn): Feed
    requires i < |f.conns|
  {
    f.(conns := f.conns[i := c])
  }

  function Emit(f: Feed): Feed {
    var now := AllCaughtUp(f.conns);
    if now != f.last then Note1(f.(last := now), OnState(now)) else f
  }

  /** clearTimeout on conn i's timer, then setTimeout. */
  function Schedule(f: Feed, i: nat, t: Timer): Feed
    requires i < |f.conns|
  {
    var kept := if f.conns[i].timer.Some? then f.timers - {f.conns[i].timer.value} else f.timers;
    SetConn(f, i, f.conns[i].(timer := Some(f.nextTimer))).(timers := kept[f.nextTimer := t], nextTimer := f.nextTimer + 1)
  }

  /** The retries of one sort since the last real EOSE, as the connection counts them. */
  function Tries(c: Conn, why: Why): nat {
    if why.Reconnecting? then c.attempt else c.closedN
  }

  /** Conn i waits for the backoff of its count, and counts one more. */
  function Defer(o: Options, f: Feed, i: nat, why: Why): Feed
    requires i < |f.conns|
  {
    var c := f.conns[i];
    var u := if why.Reconnecting? then c.(attempt := c.attempt + 1) else c.(closedN := c.closedN + 1);
    Note1(SetConn(f, i, u), Waits(i, why, Backoff(o, Tries(c, why))))
  }

  function Retry(o: Options, f: Feed, i: nat): Feed
    requires i < |f.conns|
  {
    if f.stopped then f else Schedule(Defer(o, f, i, Reconnecting), i, Reconnect(i))
  }

  /** opens: whether `new WebSocket` succeeds. */
  function Connect(o: Options, f: Feed, i: nat, opens: bool): Feed
    requires i < |f.conns|
  {
    if f.stopped then f
    else if !opens then Retry(o, f, i)
    else Note1(SetConn(f, i, f.conns[i].(ws := Some(f.nextSocket))).(nextSocket := f.nextSocket + 1), Connected(i, f.nextSocket))
  }

  function Subscribe(f: Feed, i: nat, ws: nat): Feed
    requires i < |f.conns|
  {
    var g := SetConn(f, i, f.conns[i].(eose := false, subId := f.nextId)).(nextId := f.nextId + 1);
    Emit(Note1(g, Subscribed(i, ws, f.nextId)))
  }

  function Opened(f: Feed, i: nat, ws: nat, now: int): Feed
    requires i < |f.conns|
  {
    if f.conns[i].ws != Some(ws) then f
    else Subscribe(SetConn(f, i, f.conns[i].(open := true, lastRx := now)), i, ws)
  }

  /** A message for conn i's current subscription. */
  function Verdict(o: Options, f: Feed, i: nat, ws: nat, msg: Message): Feed
    requires i < |f.conns| && !msg.Junk?
  {
    var c := f.conns[i];
    match msg
    case Event(_) => Note1(f, OnEvent(i, c.subId))
    case Eose(_) => Emit(Note1(SetConn(f, i, c.(eose := true, attempt := 0, closedN := 0)), OnCaughtUp(i)))
    case Closed(_) => Schedule(Defer(o, Emit(SetConn(f, i, c.(eose := false))), i, Resubscribing), i, Resubscribe(i, ws))
    case Other(_) => f
  }

  function MessageIn(o: Options, f0: Feed, i: nat, ws: nat, msg: Message, now: int): Feed
    requires i < |f0.conns|
  {
    var f := Note1(f0, Got(i, ws, msg));
    if f.conns[i].ws != Some(ws) then f
    else
      var c := f.conns[i].(lastRx := now);
      if msg.Junk? then SetConn(f, i, c)
      else if msg.id == c.hbId then SetConn(f, i, if msg.Eose? || msg.Closed? then c.(hbId := 0) else c)
      else if msg.id != c.subId then SetConn(f, i, c)
      else Verdict(o, SetConn(f, i, c), i, ws, msg)
  }

  /** An EOSE of the current subscription, as one change of conn i. */
  lemma EoseIs(o: Options, f: Feed, i: nat, ws: nat, msg: Message, now: int)
    requires i < |f.conns| && f.conns[i].ws == Some(ws) && msg == Eose(f.conns[i].subId) && msg.id != f.conns[i].hbId
    ensures var c := f.conns[i].(lastRx := now, eose := true, attempt := 0, closedN := 0);
            MessageIn(o, f, i, ws, msg, now) == Emit(Note1(SetConn(Note1(f, Got(i, ws, msg)), i, c), OnCaughtUp(i)))
  {
    var c := f.conns[i].(lastRx := now);
    assert f.conns[i := c][i := c.(eose := true, attempt := 0, closedN := 0)] == f.conns[i := c.(eose := true, attempt := 0, closedN := 0)];
  }

  lemma ClosedIs(o: Options, f: Feed, i: nat, ws: nat, msg: Message, now: int)
    requires i < |f.conns| && f.conns[i].ws == Some(ws) && msg == Closed(f.conns[i].subId) && msg.id != f.conns[i].hbId
    ensures var g := Emit(SetConn(Note1(f, Got(i, ws, msg)), i, f.conns[i].(lastRx := now, eose := false)));
            MessageIn(o, f, i, ws, msg, now) == Schedule(Defer(o, g, i, Resubscribing), i, Resubscribe(i, ws))
  {
    var c := f.conns[i].(lastRx := now);
    assert f.conns[i := c][i := c.(eose := false)] == f.conns[i := c.(eose := false)];
  }

  /** The connection is lost: not caught up, and reconnect. */
  function Lose(o: Options, f: Feed, i: nat): Feed
    requires i < |f.conns|
  {
    Retry(o, Emit(SetConn(f, i, f.conns[i].(ws := None, open := false, eose := false, hbId := 0))), i)
  }

  function WentDown(o: Options, f: Feed, i: nat, ws: nat): Feed
    requires i < |f.conns|
  {
    var g := Note1(f, Down(i, ws));
    if f.conns[i].ws != Some(ws) then g else Lose(o, g, i)
  }

  function TimerFires(o: Options, f: Feed, h: nat, opens: bool): Feed
    requires h in f.timers && f.timers[h].conn < |f.conns|
  {
    var t := f.timers[h];
    var g := SetConn(f, t.conn, f.conns[t.conn].(timer := None)).(timers := f.timers - {h});
    match t
    case Reconnect(i) => Connect(o, g, i, opens)
    case Resubscribe(i, ws) => if g.conns[i].open && g.conns[i].ws == Some(ws) then Subscribe(g, i, ws) else g
  }

  /** The heartbeat's round from connection i on. */
  function Heartbeat(o: Options, f: Feed, i: nat, now: int): Feed
    requires i <= |f.conns|
    decreases |f.conns| - i
  {
    if i == |f.conns| then f else Heartbeat(o, Probe(o, f, i, now), i + 1, now)
  }

  function Probe(o: Options, f: Feed, i: nat, now: int): (g: Feed)
    requires i < |f.conns|
    ensures |g.conns| == |f.conns|
  {
    var c := f.conns[i];
    if !c.open || c.ws.None? then f
    else if now - c.lastRx > o.idleMs then Lose(o, Note1(f, Down(i, c.ws.value)), i)
    else if c.hbId == 0 then SetConn(f, i, c.(hbId := f.nextId)).(nextId := f.nextId + 1)
    else f
  }

  /** start, from connection i on; opens[i]: whether its socket can be created. */
  function StartFrom(o: Options, f: Feed, i: nat, opens: seq<bool>): Feed
    requires i <= |f.conns| == |opens|
    decreases |f.conns| - i
  {
    if i == |f.conns| then f else StartFrom(o, Connect(o, f, i, opens[i]), i + 1, opens)
  }

  /** The pending timers of the first n connections. */
  function TimersOf(conns: seq<Conn>, n: nat): set<nat>
    requires n <= |conns|
  {
    if n == 0 then {} else TimersOf(conns, n - 1) + if conns[n - 1].timer.Some? then {conns[n - 1].timer.value} else {}
  }

  lemma {:induction false} TimerIsOf(conns: seq<Conn>, n: nat, i: nat)
    requires i < n <= |conns| && conns[i].timer.Some?
    ensures conns[i].timer.value in TimersOf(conns, n)
  {
    if i < n - 1 {
      TimerIsOf(conns, n - 1, i);
    }
  }

  function LetGo(c: Conn): Conn {
    c.(ws := None, open := false, eose := false, timer := None)
  }

  function LetGoAll(conns: seq<Conn>): seq<Conn> {
    seq(|conns|, i requires 0 <= i < |conns| => LetGo(conns[i]))
  }

  /** Every timer cleared, every socket let go. */
  function Halt(f: Feed): Feed {
    f.(stopped := true, conns := LetGoAll(f.conns), timers := f.timers - TimersOf(f.conns, |f.conns|))
  }

  function Stop(f: Feed): Feed {
    Emit(Note1(Halt(f), Stopped))
  }

  datatype Step =
    | Start(sockets: seq<bool>)
    | SocketOpens(conn: nat, ws: nat, now: int)
    | SocketMessage(conn: nat, ws: nat, msg: Message, now: int)
    | SocketDown(conn: nat, ws: nat)
    | Timeout(h: nat, opens: bool)
    | HeartbeatTick(now: int)
    | StopFeed

  /** A step that cannot happen changes nothing: a current socket delivers only once it is open. */
  function Next(o: Options, f: Feed, step: Step): Feed {
    match step
    case Start(sockets) =>
      if f.started || f.stopped || |sockets| != |f.conns| then f else StartFrom(o, f.(started := true), 0, sockets)
    case SocketOpens(i, ws, now) => if i < |f.conns| then Opened(f, i, ws, now) else f
    case SocketMessage(i, ws, msg, now) =>
      if i < |f.conns| && (f.conns[i].ws == Some(ws) ==> f.conns[i].open) then MessageIn(o, f, i, ws, msg, now) else f
    case SocketDown(i, ws) => if i < |f.conns| then WentDown(o, f, i, ws) else f
    case Timeout(h, opens) => if h in f.timers && f.timers[h].conn < |f.conns| then TimerFires(o, f, h, opens) else f
    case HeartbeatTick(now) => if f.started && !f.stopped then Heartbeat(o, f, 0, now) else f
    case StopFeed => Stop(f)
  }

  function Run(o: Options, f: Feed, steps: seq<Step>): Feed {
    if steps == [] then f else Next(o, Run(o, f, steps[..|steps| - 1]), Last(steps))
  }

  /** A run takes its steps one after the other. */
  lemma RunsInOrder(o: Options, f: Feed, steps: seq<Step>, step: Step)
    ensures Run(o, f, []) == f && Run(o, f, steps + [step]) == Next(o, Run(o, f, steps), step)
  {
    assert (steps + [step])[..|steps|] == steps;
  }
}
