/**
 * Catch-up coverage: gift wraps reaching relays while the listener of
 * VetoNotices connects, asks, loses relays and restarts. What a relay has to do
 * is only to send what it holds, within some delay: what has come in that long
 * before, when its EOSE counts and, while it is caught up, whenever its point is
 * advanced.
 */
module VetoCoverage {
  import opened Basics
  import opened RelayFeed
  import opened RelayFeedSafety
  import opened RelayFeedCallbacks
  import opened VetoNotices

  /** How late a relay may be: a wrap's time and a point's are cut to seconds, and the minute of slack. */
  const SLACK_MS: int := 61_000

  /** A wrap at one relay. */
  datatype Copy = Copy(relay: string, wrap: Arrival)

  /**
   * The listener, and beside it: where each connection's latest REQ starts; for
   * each relay where the last REQ before its first point started; the wraps that
   * reached relays, and those of them passed on to the listener.
   */
  datatype World = World(l: Listener, from: seq<int>, base: map<string, int>, arrived: set<Copy>, delivered: set<Copy>)

  datatype CoverStep =
    | FeedDoes(step: Step)                                      // sockets, messages, timers, heartbeat
    | PointsTick                                                // the timer that advances the points of live relays
    | TimePasses(to: int)
    | Reaches(relay: string, id: string, createdAt: int)        // a wrap reaches a relay, now
    | Sends(conn: nat, ws: nat, sub: nat, wrap: Arrival, now: int)  // a relay sends a wrap as an EVENT
    | Restarts                                                  // the gateway restarts; the stored points stay

  ghost function StartOf(l: Listener, relay: string): int {
    From(l.seenUntil, l.relays, relay, l.clock)
  }

  /** A REQ was sent on connection i: it has a new subscription id. */
  predicate Asked(f: Feed, g: Feed, i: nat) {
    i < |f.conns| && i < |g.conns| && g.conns[i].subId != f.conns[i].subId
  }

  predicate AskedRelay(f: Feed, g: Feed, relay: string) {
    exists i :: 0 <= i < |f.conns| && Asked(f, g, i) && f.conns[i].url == relay
  }

  /** A feed step, with the starts of the REQs it sends. */
  ghost function FeedStepOf(o: Options, c: World, step: Step): World {
    var u := NextListener(o, c.l, FeedStep(step));
    c.(l := u,
       from := seq(|c.from|, i requires 0 <= i < |c.from| =>
             if Asked(c.l.feed, u.feed, i) then StartOf(c.l, Url(c.l.feed, i)) else c.from[i]),
       base := map r | r in c.base ::
             if r !in PointsOf(c.l) && AskedRelay(c.l.feed, u.feed, r) then Max(c.base[r], StartOf(c.l, r)) else c.base[r])
  }

  ghost function NextCover(o: Options, c: World, step: CoverStep): World {
    match step
    case FeedDoes(st) => FeedStepOf(o, c, st)
    case PointsTick => c.(l := NextListener(o, c.l, AdvanceTick))
    case TimePasses(to) => c.(l := NextListener(o, c.l, Tick(to)))
    case Reaches(relay, id, createdAt) => c.(arrived := c.arrived + {Copy(relay, Arrival(id, c.l.clock, createdAt))})
    case Sends(i, ws, sub, wrap, now) =>
      var st := SocketMessage(i, ws, Event(sub), now);
      var copy := Copy(Url(c.l.feed, i), wrap);
      var u := FeedStepOf(o, c, st);
      if copy in c.arrived && Delivered(c.l.feed, st) == [OnEvent(i, sub)] then u.(delivered := u.delivered + {copy}) else u
    case Restarts =>
      var feed := NewFeed(seq(|c.l.feed.conns|, i requires 0 <= i < |c.l.feed.conns| => c.l.feed.conns[i].url));
      c.(l := c.l.(feed := feed),
         from := seq(|feed.conns|, i requires 0 <= i < |feed.conns| => StartOf(c.l, feed.conns[i].url)),
         base := map r | r in c.base :: if r !in PointsOf(c.l) then Max(c.base[r], StartOf(c.l, r)) else c.base[r])
  }

  ghost function RunCover(o: Options, c: World, steps: seq<CoverStep>): World {
    if steps == [] then c else NextCover(o, RunCover(o, c, steps[..|steps| - 1]), Last(steps))
  }

  predicate Due(c: World, i: nat, x: Copy, delay: nat)
    requires i < |c.from|
  {
    x.relay == Url(c.l.feed, i) && x.wrap.createdAt >= SinceOf(c.from[i]) && x.wrap.at + delay < c.l.clock
  }

  /** Connection i's relay has sent every wrap the latest REQ asked for that came in more than `delay` ms ago. */
  ghost predicate Supplied(c: World, i: nat, delay: nat) {
    && i < |c.from|
    && forall x :: x in c.arrived && Due(c, i, x, delay) ==> x in c.delivered
  }

  /** What is asked of relays: an EOSE that counts, or a point advanced, finds the relay's wraps sent. */
  ghost predicate HonestRelay(c: World, step: CoverStep, delay: nat) {
    && (step.FeedDoes? && ToAdvance(c.l.feed, step.step) != [] ==> Supplied(c, step.step.conn, delay))
    && (step.PointsTick? ==> forall i :: 0 <= i < |c.l.feed.conns| && c.l.feed.conns[i].CaughtUp() ==> Supplied(c, i, delay))
  }

  ghost predicate HonestRun(o: Options, c: World, steps: seq<CoverStep>, delay: nat) {
    forall n :: 0 <= n < |steps| ==> HonestRelay(RunCover(o, c, steps[..n]), steps[n], delay)
  }

  // ------------------------------------------------------------------------ invariant

  /** A REQ starts no later than its relay's point, or than what the relay is covered from once it has one. */
  ghost predicate StartOk(c: World, i: nat)
    requires i < |c.from|
  {
    var r := Url(c.l.feed, i);
    && r in c.base && c.from[i] <= c.l.clock
    && c.from[i] <= if r in PointsOf(c.l) then PointsOf(c.l)[r] else c.base[r]
  }

  /** A wrap the last REQ before the relay's first point let through, or would have. */
  ghost predicate SinceBase(c: World, x: Copy) {
    x.relay in c.base && SinceOf(c.base[x.relay]) <= x.wrap.createdAt
  }

  /** Every NIP-59 wrap since the relay's base that came in before its point, by more than the delay, was passed on. */
  ghost predicate CopyOk(c: World, x: Copy, delay: nat) {
    && x.wrap.at <= c.l.clock
    && (x.relay in PointsOf(c.l) && Nip59(x.wrap) && SinceBase(c, x) && x.wrap.at + delay < PointsOf(c.l)[x.relay]
        ==> x in c.delivered)
  }

  ghost predicate CoverInv(o: Options, c: World, delay: nat) {
    && ListenerOk(o, c.l) && |c.from| == |c.l.feed.conns|
    && (forall i :: 0 <= i < |c.from| ==> StartOk(c, i))
    && (forall x :: x in c.arrived ==> CopyOk(c, x, delay))
  }

  lemma StartIsPast(o: Options, l: Listener, relay: string)
    requires ListenerOk(o, l)
    ensures StartOf(l, relay) <= l.clock
    ensures relay in PointsOf(l) ==> StartOf(l, relay) == PointsOf(l)[relay]
  {
    var points := PointsOf(l);
    if relay !in points && points != map[] {
      LeastExists(points);
    }
  }

  /** Points after a step: each as it was, or now for a relay in the list. */
  lemma PointsAdvance(l: Listener, list: seq<string>, r: string)
    ensures var u := l.(seenUntil := Advance(l.seenUntil, l.relays, list, l.clock));
            && (r in PointsOf(u) <==> r in PointsOf(l) || r in list)
            && (r in PointsOf(u) ==> PointsOf(u)[r] == if r in list then l.clock else PointsOf(l)[r])
  {
  }

  /** What was not asked for reached the relay before the REQ's start. */
  lemma UnaskedIsOlder(w: Arrival, from: int)
    requires Nip59(w) && w.createdAt < SinceOf(from)
    ensures w.at + 61_000 <= from
  {
  }

  /** The heart of it: a supplied connection lets its relay's point be moved up to now. */
  lemma SuppliedCovers(o: Options, c: World, i: nat, x: Copy, delay: nat)
    requires CoverInv(o, c, delay) && i < |c.from| && Supplied(c, i, delay) && x in c.arrived && x.relay == Url(c.l.feed, i)
    requires Nip59(x.wrap) && SinceBase(c, x) && x.wrap.at + delay < c.l.clock && delay < SLACK_MS
    ensures x in c.delivered
  {
    assert StartOk(c, i) && CopyOk(c, x, delay);
    if x.wrap.createdAt < SinceOf(c.from[i]) {
      UnaskedIsOlder(x.wrap, c.from[i]);
    }
  }

  /** Points moved only for relays with a supplied connection: nothing reached them that was not passed on. */
  ghost predicate OnlySupplied(c: World, list: seq<string>, delay: nat) {
    forall r :: r in list ==> exists i :: 0 <= i < |c.from| && Url(c.l.feed, i) == r && Supplied(c, i, delay)
  }

  lemma CopyStaysOk(o: Options, c: World, u: World, list: seq<string>, x: Copy, delay: nat)
    requires CoverInv(o, c, delay) && OnlySupplied(c, list, delay) && x in c.arrived && delay < SLACK_MS
    requires u.l.seenUntil == Advance(c.l.seenUntil, c.l.relays, list, c.l.clock) && u.l.relays == c.l.relays && u.l.clock >= c.l.clock
    requires u.base.Keys == c.base.Keys && (forall r :: r in c.base && r in PointsOf(c.l) ==> u.base[r] == c.base[r])
    requires (forall r :: r in c.base ==> c.base[r] <= u.base[r]) && c.delivered <= u.delivered
    ensures CopyOk(u, x, delay)
  {
    assert CopyOk(c, x, delay);
    PointsAdvance(c.l, list, x.relay);
    if x.relay in list && Nip59(x.wrap) && SinceBase(u, x) && x.wrap.at + delay < c.l.clock {
      var i :| 0 <= i < |c.from| && Url(c.l.feed, i) == x.relay && Supplied(c, i, delay);
      SuppliedCovers(o, c, i, x, delay);
    }
  }

  lemma StartStaysOk(o: Options, c: World, u: World, list: seq<string>, i: nat, delay: nat)
    requires CoverInv(o, c, delay) && i < |c.from| == |u.from| && Url(u.l.feed, i) == Url(c.l.feed, i)
    requires u.l.seenUntil == Advance(c.l.seenUntil, c.l.relays, list, c.l.clock) && u.l.relays == c.l.relays && u.l.clock >= c.l.clock
    requires u.base.Keys == c.base.Keys && (forall r :: r in c.base ==> c.base[r] <= u.base[r]) && Url(c.l.feed, i) in u.base
    requires u.from[i] == c.from[i] ||
             (u.from[i] == StartOf(c.l, Url(c.l.feed, i)) && (Url(c.l.feed, i) !in PointsOf(c.l) ==> u.from[i] <= u.base[Url(c.l.feed, i)]))
    ensures StartOk(u, i)
  {
    assert StartOk(c, i);
    var r := Url(c.l.feed, i);
    StartIsPast(o, c.l, r);
    PointsAdvance(c.l, list, r);
  }

  lemma FeedStepKeeps(o: Options, c: World, st: Step, delay: nat)
    requires CoverInv(o, c, delay) && delay < SLACK_MS
    requires ToAdvance(c.l.feed, st) != [] ==> Supplied(c, st.conn, delay)
    ensures CoverInv(o, FeedStepOf(o, c, st), delay)
  {
    var u, list := FeedStepOf(o, c, st), ToAdvance(c.l.feed, st);
    PointMovesOnlyWhenLive(o, c.l, FeedStep(st), "");
    StepKeepsRelays(o, c.l.feed, st);
    AdvancedIsSupplied(c, st, delay);
    forall i | 0 <= i < |u.from| ensures StartOk(u, i) {
      FeedStartStaysOk(o, c, st, i, delay);
    }
    forall x | x in u.arrived ensures CopyOk(u, x, delay) {
      CopyStaysOk(o, c, u, list, x, delay);
    }
  }

  lemma FeedStartStaysOk(o: Options, c: World, st: Step, i: nat, delay: nat)
    requires CoverInv(o, c, delay) && i < |c.from|
    ensures StartOk(FeedStepOf(o, c, st), i)
  {
    var u := FeedStepOf(o, c, st);
    StepKeepsRelays(o, c.l.feed, st);
    assert StartOk(c, i);
    StartStaysOk(o, c, u, ToAdvance(c.l.feed, st), i, delay);
  }

  lemma AdvancedIsSupplied(c: World, st: Step, delay: nat)
    requires |c.from| == |c.l.feed.conns| && (ToAdvance(c.l.feed, st) != [] ==> Supplied(c, st.conn, delay))
    ensures OnlySupplied(c, ToAdvance(c.l.feed, st), delay)
  {
    var called := Delivered(c.l.feed, st);
    if ToAdvance(c.l.feed, st) != [] {
      assert called == [OnCaughtUp(st.conn)];
      assert Url(c.l.feed, st.conn) in ToAdvance(c.l.feed, st);
    }
  }

  lemma PointsTickKeeps(o: Options, c: World, delay: nat)
    requires CoverInv(o, c, delay) && HonestRelay(c, PointsTick, delay) && delay < SLACK_MS
    ensures CoverInv(o, NextCover(o, c, PointsTick), delay)
  {
    var u, list := NextCover(o, c, PointsTick), CaughtUpRelays(c.l.feed.conns);
    PointMovesOnlyWhenLive(o, c.l, AdvanceTick, "");
    assert OnlySupplied(c, list, delay);
    forall i | 0 <= i < |u.from| ensures StartOk(u, i) {
      assert StartOk(c, i);
      StartStaysOk(o, c, u, list, i, delay);
    }
    forall x | x in u.arrived ensures CopyOk(u, x, delay) { CopyStaysOk(o, c, u, list, x, delay); }
  }

  lemma TimeKeeps(o: Options, c: World, to: int, delay: nat)
    requires CoverInv(o, c, delay)
    ensures CoverInv(o, NextCover(o, c, TimePasses(to)), delay)
  {
    var u := NextCover(o, c, TimePasses(to));
    PointMovesOnlyWhenLive(o, c.l, Tick(to), "");
    forall i | 0 <= i < |u.from| ensures StartOk(u, i) { assert StartOk(c, i); }
    forall x | x in u.arrived ensures CopyOk(u, x, delay) { assert CopyOk(c, x, delay); }
  }

  lemma ReachesKeeps(o: Options, c: World, step: CoverStep, delay: nat)
    requires CoverInv(o, c, delay) && step.Reaches?
    ensures CoverInv(o, NextCover(o, c, step), delay)
  {
    var u := NextCover(o, c, step);
    forall i | 0 <= i < |u.from| ensures StartOk(u, i) { assert StartOk(c, i); }
    forall x | x in u.arrived ensures CopyOk(u, x, delay) { assert x in c.arrived ==> CopyOk(c, x, delay); }
  }

  lemma SendsKeeps(o: Options, c: World, step: CoverStep, delay: nat)
    requires CoverInv(o, c, delay) && step.Sends? && delay < SLACK_MS
    ensures CoverInv(o, NextCover(o, c, step), delay)
  {
    var st := SocketMessage(step.conn, step.ws, Event(step.sub), step.now);
    var u, v := NextCover(o, c, step), FeedStepOf(o, c, st);
    FeedStepKeeps(o, c, st, delay);
    forall i | 0 <= i < |u.from| ensures StartOk(u, i) { assert StartOk(v, i); }
    forall x | x in u.arrived ensures CopyOk(u, x, delay) { assert CopyOk(v, x, delay); }
  }

  lemma RestartKeeps(o: Options, c: World, delay: nat)
    requires CoverInv(o, c, delay) && delay < SLACK_MS
    ensures CoverInv(o, NextCover(o, c, Restarts), delay)
  {
    var u := NextCover(o, c, Restarts);
    assert PointsOf(u.l) == PointsOf(c.l) && u.l.clock == c.l.clock;
    RunKeepsInv(o, seq(|c.l.feed.conns|, i requires 0 <= i < |c.l.feed.conns| => c.l.feed.conns[i].url), []);
    forall i | 0 <= i < |u.from| ensures StartOk(u, i) {
      assert StartOk(c, i);
      StartStaysOk(o, c, u, [], i, delay);
    }
    forall x | x in u.arrived ensures CopyOk(u, x, delay) { CopyStaysOk(o, c, u, [], x, delay); }
  }

  lemma CoverStepKeeps(o: Options, c: World, step: CoverStep, delay: nat)
    requires CoverInv(o, c, delay) && HonestRelay(c, step, delay) && delay < SLACK_MS
    ensures CoverInv(o, NextCover(o, c, step), delay)
  {
    match step
    case FeedDoes(st) => FeedStepKeeps(o, c, st, delay);
    case PointsTick => PointsTickKeeps(o, c, delay);
    case TimePasses(to) => TimeKeeps(o, c, to, delay);
    case Reaches(_, _, _) => ReachesKeeps(o, c, step, delay);
    case Sends(_, _, _, _, _) => SendsKeeps(o, c, step, delay);
    case Restarts => RestartKeeps(o, c, delay);
  }

  // --------------------------------------------------------------------- the main result

  /** A first start: no point is stored yet, whatever the relays hold. */
  ghost predicate FirstStart(c: World) {
    && c.l.seenUntil == Never && c.l.feed == NewFeed(seq(|c.l.feed.conns|, i requires 0 <= i < |c.l.feed.conns| => c.l.feed.conns[i].url))
    && |c.from| == |c.l.feed.conns| && (forall i :: 0 <= i < |c.from| ==> c.from[i] == c.l.clock)
    && (forall i :: 0 <= i < |c.from| ==> Url(c.l.feed, i) in c.base && c.base[Url(c.l.feed, i)] == c.l.clock)
    && (forall x :: x in c.arrived ==> x.wrap.at <= c.l.clock)
  }

  lemma FirstStartOk(o: Options, c: World, delay: nat)
    requires FirstStart(c)
    ensures CoverInv(o, c, delay)
  {
    RunKeepsInv(o, seq(|c.l.feed.conns|, i requires 0 <= i < |c.l.feed.conns| => c.l.feed.conns[i].url), []);
  }

  lemma {:induction false} CoverOverRuns(o: Options, c: World, steps: seq<CoverStep>, delay: nat)
    requires FirstStart(c) && HonestRun(o, c, steps, delay) && delay < SLACK_MS
    ensures CoverInv(o, RunCover(o, c, steps), delay)
  {
    if steps == [] {
      FirstStartOk(o, c, delay);
    } else {
      var front := steps[..|steps| - 1];
      forall n | 0 <= n < |front| ensures HonestRelay(RunCover(o, c, front[..n]), front[n], delay) {
        assert front[..n] == steps[..n] && HonestRelay(RunCover(o, c, steps[..n]), steps[n], delay);
      }
      CoverOverRuns(o, c, front, delay);
      assert HonestRelay(RunCover(o, c, steps[..|front|]), steps[|front|], delay);
      CoverStepKeeps(o, RunCover(o, c, front), Last(steps), delay);
    }
  }

  /** The wrap was neither passed on nor will be asked for again. */
  ghost predicate Missed(u: World, x: Copy) {
    && x in u.arrived && x !in u.delivered && x.relay in PointsOf(u.l)
    && x.wrap.createdAt < Since(u.l.seenUntil, u.l.relays, x.relay, u.l.clock)
  }

  /**
   * Catch-up coverage. From a first start, over any run with relays that send what
   * they hold with a delay of less than 61 s, with lost connections,
   * resubscriptions and restarts: of a relay that has a point, no NIP-59 wrap is
   * missed that the last REQ before its first point would let through; and what
   * came in before the point by more than the delay was passed on.
   */
  lemma CatchUpCoverage(o: Options, c: World, steps: seq<CoverStep>, x: Copy, delay: nat)
    requires FirstStart(c) && HonestRun(o, c, steps, delay) && delay < SLACK_MS
    ensures var u := RunCover(o, c, steps);
            x in u.arrived && Nip59(x.wrap) && SinceBase(u, x) ==>
              && !Missed(u, x)
              && (x.relay in PointsOf(u.l) && x.wrap.at + delay < PointsOf(u.l)[x.relay] ==> x in u.delivered)
  {
    var u := RunCover(o, c, steps);
    CoverOverRuns(o, c, steps, delay);
    if x in u.arrived && x !in u.delivered && Nip59(x.wrap) && SinceBase(u, x) && x.relay in PointsOf(u.l) {
      assert CopyOk(u, x, delay);
      StartIsPast(o, u.l, x.relay);
      SlackIsExact(u.l.seenUntil, u.l.relays, x.relay, u.l.clock, delay);
    }
  }

  // ---------------------------------------------------------------- since the first REQ

  /** The feed of one relay whose first subscription is lost before its EOSE and whose second is open. */
  function FirstTry(url: string): seq<Step> {
    [Start([true]), SocketOpens(0, 0, 0), SocketDown(0, 0)]
  }

  ghost predicate OneConn(f: Feed, url: string, ws: Option<nat>, open: bool, subId: nat) {
    && |f.conns| == 1 && f.conns[0].url == url && f.conns[0].ws == ws && f.conns[0].open == open && !f.conns[0].eose
    && f.conns[0].subId == subId && f.conns[0].hbId == 0 && !f.stopped && f.started
  }

  lemma FirstSub(o: Options, url: string)
    ensures var a := Next(o, NewFeed([url]), Start([true]));
            var b := Next(o, a, SocketOpens(0, 0, 0));
            && OneConn(a, url, Some(0), false, 0) && OneConn(b, url, Some(0), true, 1)
            && a.nextSocket == b.nextSocket == 1 && b.nextId == 2 && b.nextTimer == 0 && b.timers == map[] && b.conns[0].timer.None?
  {
    var f := NewFeed([url]).(started := true);
    var a := Connect(o, f, 0, true);
    assert StartFrom(o, f, 0, [true]) == StartFrom(o, a, 1, [true]) == a;
  }

  lemma SecondSub(o: Options, f: Feed, url: string)
    requires OneConn(f, url, Some(0), true, 1) && f.nextSocket == 1 && f.nextId == 2 && f.nextTimer == 0 && f.timers == map[]
    requires f.conns[0].timer.None?
    ensures var a := Next(o, f, SocketDown(0, 0));
            var b := Next(o, a, Timeout(0, true));
            var c := Next(o, b, SocketOpens(0, 1, 0));
            OneConn(a, url, None, false, 1) && OneConn(b, url, Some(1), false, 1) && OneConn(c, url, Some(1), true, 2)
  {
    var a := Next(o, f, SocketDown(0, 0));
    assert a.timers == map[0 := Reconnect(0)] && a.conns[0].timer == Some(0);
    var b := Next(o, a, Timeout(0, true));
  }

  /** A first start with one relay, at time t. */
  function OneRelay(url: string, t: int): World {
    World(Listener(NewFeed([url]), {url}, Never, t), [t], map[url := t], {}, {})
  }

  lemma OneRelayStarts(url: string, t: int)
    ensures FirstStart(OneRelay(url, t))
  {
    assert NewFeed([url]).conns[0].url == url;
  }

  /** The world of one relay at clock `now` with no point yet, the latest REQ having started at `from`. */
  ghost predicate NoPointYet(c: World, url: string, now: int, from: int, arrived: set<Copy>) {
    && c.l == Listener(c.l.feed, {url}, Never, now) && |c.l.feed.conns| == 1 && c.l.feed.conns[0].url == url
    && c.from == [from] && from <= now && c.base == map[url := from] && c.arrived == arrived && c.delivered == {}
  }

  /** A feed step that makes no callback moves no point; the start follows the subscription id. */
  lemma QuietStep(o: Options, c: World, st: Step, url: string, now: int, from: int, arrived: set<Copy>, delay: nat)
    requires !st.SocketMessage? && NoPointYet(c, url, now, from, arrived)
    ensures var u, g := FeedStepOf(o, c, st), Next(o, c.l.feed, st);
            && HonestRelay(c, FeedDoes(st), delay) && u.l.feed == g
            && NoPointYet(u, url, now, if Asked(c.l.feed, g, 0) then now else from, arrived)
  {
    var u, g := FeedStepOf(o, c, st), Next(o, c.l.feed, st);
    assert Delivered(c.l.feed, st) == [] && ToAdvance(c.l.feed, st) == [];
    StepKeepsRelays(o, c.l.feed, st);
    assert AskedRelay(c.l.feed, g, url) <==> Asked(c.l.feed, g, 0);
    assert c.base.Keys == {url} && u.base.Keys == {url};
  }

  lemma RunOn(o: Options, c: World, steps: seq<CoverStep>, step: CoverStep, delay: nat)
    requires HonestRun(o, c, steps, delay) && HonestRelay(RunCover(o, c, steps), step, delay)
    ensures HonestRun(o, c, steps + [step], delay)
    ensures RunCover(o, c, steps + [step]) == NextCover(o, RunCover(o, c, steps), step)
  {
    var more := steps + [step];
    assert more[..|steps|] == steps;
    forall n | 0 <= n < |more| ensures HonestRelay(RunCover(o, c, more[..n]), more[n], delay) {
      assert n < |steps| ==> more[..n] == steps[..n] && HonestRelay(RunCover(o, c, steps[..n]), steps[n], delay);
    }
  }

  ghost predicate FirstSubOpen(f: Feed, url: string) {
    && OneConn(f, url, Some(0), true, 1) && f.nextSocket == 1 && f.nextId == 2 && f.nextTimer == 0 && f.timers == map[]
    && f.conns[0].timer.None?
  }

  lemma QuietRunsOn(o: Options, c0: World, run: seq<CoverStep>, st: Step, url: string, now: int, from: int,
                    arrived: set<Copy>, delay: nat)
    requires HonestRun(o, c0, run, delay) && NoPointYet(RunCover(o, c0, run), url, now, from, arrived) && !st.SocketMessage?
    ensures var c, u := RunCover(o, c0, run), RunCover(o, c0, run + [FeedDoes(st)]);
            && HonestRun(o, c0, run + [FeedDoes(st)], delay) && u.l.feed == Next(o, c.l.feed, st)
            && NoPointYet(u, url, now, if Asked(c.l.feed, u.l.feed, 0) then now else from, arrived)
  {
    QuietStep(o, RunCover(o, c0, run), st, url, now, from, arrived, delay);
    RunOn(o, c0, run, FeedDoes(st), delay);
  }

  lemma FirstReqSent(o: Options, url: string, t: int, delay: nat) returns (run: seq<CoverStep>)
    ensures HonestRun(o, OneRelay(url, t), run, delay)
    ensures var b := RunCover(o, OneRelay(url, t), run); NoPointYet(b, url, t, t, {}) && FirstSubOpen(b.l.feed, url)
  {
    var c := OneRelay(url, t);
    run := [];
    FirstSub(o, url);
    QuietRunsOn(o, c, run, Start([true]), url, t, t, {}, delay);
    run := run + [FeedDoes(Start([true]))];
    QuietRunsOn(o, c, run, SocketOpens(0, 0, 0), url, t, t, {}, delay);
    run := run + [FeedDoes(SocketOpens(0, 0, 0))];
  }

  lemma WrapRunsOn(o: Options, c: World, run: seq<CoverStep>, url: string, w: Arrival, delay: nat)
    requires HonestRun(o, c, run, delay) && NoPointYet(RunCover(o, c, run), url, w.at, w.at, {})
    ensures HonestRun(o, c, run + [Reaches(url, w.id, w.createdAt)], delay)
    ensures var b, d := RunCover(o, c, run), RunCover(o, c, run + [Reaches(url, w.id, w.createdAt)]);
            NoPointYet(d, url, w.at, w.at, {Copy(url, w)}) && d.l.feed == b.l.feed
  {
    RunOn(o, c, run, Reaches(url, w.id, w.createdAt), delay);
  }

  lemma TimeRunsOn(o: Options, c: World, run: seq<CoverStep>, url: string, now: int, from: int,
                   arrived: set<Copy>, u: int, delay: nat)
    requires HonestRun(o, c, run, delay) && NoPointYet(RunCover(o, c, run), url, now, from, arrived) && now <= u
    ensures HonestRun(o, c, run + [TimePasses(u)], delay)
    ensures var b, d := RunCover(o, c, run), RunCover(o, c, run + [TimePasses(u)]);
            NoPointYet(d, url, u, from, arrived) && d.l.feed == b.l.feed
  {
    RunOn(o, c, run, TimePasses(u), delay);
  }

  lemma WrapAndLoss(o: Options, c: World, run: seq<CoverStep>, url: string, w: Arrival, u: int, delay: nat)
    returns (more: seq<CoverStep>)
    requires HonestRun(o, c, run, delay) && w.at <= u
    requires var b := RunCover(o, c, run); NoPointYet(b, url, w.at, w.at, {}) && FirstSubOpen(b.l.feed, url)
    ensures HonestRun(o, c, more, delay)
    ensures var b, d := RunCover(o, c, run), RunCover(o, c, more);
            NoPointYet(d, url, u, w.at, {Copy(url, w)}) && d.l.feed == Next(o, b.l.feed, SocketDown(0, 0))
  {
    SecondSub(o, RunCover(o, c, run).l.feed, url);
    WrapRunsOn(o, c, run, url, w, delay);
    more := run + [Reaches(url, w.id, w.createdAt)];
    QuietRunsOn(o, c, more, SocketDown(0, 0), url, w.at, w.at, {Copy(url, w)}, delay);
    more := more + [FeedDoes(SocketDown(0, 0))];
    TimeRunsOn(o, c, more, url, w.at, w.at, {Copy(url, w)}, u, delay);
    more := more + [TimePasses(u)];
  }

  lemma SecondReqSent(o: Options, c: World, run: seq<CoverStep>, url: string, w: Arrival, u: int, f: Feed, delay: nat)
    returns (more: seq<CoverStep>)
    requires HonestRun(o, c, run, delay) && FirstSubOpen(f, url)
    requires var d := RunCover(o, c, run); NoPointYet(d, url, u, w.at, {Copy(url, w)}) && d.l.feed == Next(o, f, SocketDown(0, 0))
    ensures HonestRun(o, c, more, delay)
    ensures var d := RunCover(o, c, more); NoPointYet(d, url, u, u, {Copy(url, w)}) && OneConn(d.l.feed, url, Some(1), true, 2)
  {
    SecondSub(o, f, url);
    QuietRunsOn(o, c, run, Timeout(0, true), url, u, w.at, {Copy(url, w)}, delay);
    more := run + [FeedDoes(Timeout(0, true))];
    QuietRunsOn(o, c, more, SocketOpens(0, 1, 0), url, u, w.at, {Copy(url, w)}, delay);
    more := more + [FeedDoes(SocketOpens(0, 1, 0))];
  }

  /** The first EOSE on the open subscription, with nothing arrived that it asked for. */
  lemma FirstEose(o: Options, c: World, url: string, now: int, arrived: set<Copy>, ws: nat, sub: nat, delay: nat)
    requires Inv(o, c.l.feed) && NoPointYet(c, url, now, now, arrived) && OneConn(c.l.feed, url, Some(ws), true, sub)
    requires forall x :: x in arrived ==> x.wrap.createdAt < SinceOf(now)
    ensures var st := FeedDoes(SocketMessage(0, ws, Eose(sub), 0));
            var v := NextCover(o, c, st);
            && HonestRelay(c, st, delay) && v.arrived == arrived && v.delivered == {} && v.base == c.base
            && v.l.relays == {url} && v.l.clock == now && v.from == [now] && PointsOf(v.l) == map[url := now]
            && |v.l.feed.conns| == 1 && v.l.feed.conns[0].url == url && v.l.feed.conns[0].CaughtUp()
  {
    var st := SocketMessage(0, ws, Eose(sub), 0);
    DeliveredByFields(o, c.l.feed, 0, ws, Eose(sub), 0);
    FeedStepKeepsUrls(o, c.l.feed, 0, ws, Eose(sub), 0);
    StepKeepsRelays(o, c.l.feed, st);
    assert ToAdvance(c.l.feed, st) == [url];
    assert Supplied(c, 0, delay);
    var g := Next(o, c.l.feed, st);
    assert !Asked(c.l.feed, g, 0) && !AskedRelay(c.l.feed, g, url);
    PointsAdvance(c.l, [url], url);
  }

  /**
   * It is the last REQ before the first point that counts, not the first REQ: a
   * wrap that reaches the relay after the listener's first REQ, whose EOSE never
   * comes, is missed if the REQ that got the first EOSE, sent at u, does not let
   * it through, however prompt the relay is.
   */
  lemma RetriedFirstReqMisses(o: Options, url: string, w: Arrival, u: int, delay: nat) returns (run: seq<CoverStep>)
    requires w.at <= u && w.createdAt < SinceOf(u)
    ensures MissedIn(o, url, w, u, run, delay)
  {
    var c := OneRelay(url, w.at);
    OneRelayStarts(url, w.at);
    run := FirstReqSent(o, url, w.at, delay);
    var f := RunCover(o, c, run).l.feed;
    run := WrapAndLoss(o, c, run, url, w, u, delay);
    run := SecondReqSent(o, c, run, url, w, u, f, delay);
    FeedStaysOk(o, c, run);
    FirstEose(o, RunCover(o, c, run), url, u, {Copy(url, w)}, 1, 2, delay);
    RunOn(o, c, run, FeedDoes(SocketMessage(0, 1, Eose(2), 0)), delay);
    run := run + [FeedDoes(SocketMessage(0, 1, Eose(2), 0))];
  }

  lemma {:induction false} FeedStaysOk(o: Options, c: World, run: seq<CoverStep>)
    requires FirstStart(c)
    ensures Inv(o, RunCover(o, c, run).l.feed)
  {
    if run == [] {
      FirstStartOk(o, c, 0);
    } else {
      FeedStaysOk(o, c, run[..|run| - 1]);
      FeedStepOk(o, RunCover(o, c, run[..|run| - 1]), Last(run));
    }
  }

  lemma FeedStepOk(o: Options, c: World, step: CoverStep)
    requires Inv(o, c.l.feed)
    ensures Inv(o, NextCover(o, c, step).l.feed)
  {
    match step
    case FeedDoes(st) => StepKeepsInv(o, c.l.feed, st);
    case Sends(i, ws, sub, wrap, now) => StepKeepsInv(o, c.l.feed, SocketMessage(i, ws, Event(sub), now));
    case Restarts => RunKeepsInv(o, seq(|c.l.feed.conns|, i requires 0 <= i < |c.l.feed.conns| => c.l.feed.conns[i].url), []);
    case _ =>
  }

  /** From a first start at the time w reaches the only relay: a run with a last REQ before the first point at u, and w missed. */
  ghost predicate MissedIn(o: Options, url: string, w: Arrival, u: int, run: seq<CoverStep>, delay: nat) {
    var v := RunCover(o, OneRelay(url, w.at), run);
    && FirstStart(OneRelay(url, w.at)) && HonestRun(o, OneRelay(url, w.at), run, delay)
    && v.base == map[url := u] && Missed(v, Copy(url, w))
  }

  /**
   * Both together: a NIP-59 wrap can be missed by a listener whose last REQ before
   * the first point started at u exactly when that REQ does not let it through.
   */
  lemma MissedIff(o: Options, url: string, w: Arrival, u: int, delay: nat)
    requires Nip59(w) && w.at <= u && delay < SLACK_MS
    ensures (exists run :: MissedIn(o, url, w, u, run, delay)) <==> w.createdAt < SinceOf(u)
  {
    if w.createdAt < SinceOf(u) {
      var run := RetriedFirstReqMisses(o, url, w, u, delay);
      assert MissedIn(o, url, w, u, run, delay);
    }
    forall run | MissedIn(o, url, w, u, run, delay) ensures w.createdAt < SinceOf(u) {
      CatchUpCoverage(o, OneRelay(url, w.at), run, Copy(url, w), delay);
    }
  }

  // -------------------------------------------------------------------------- how late

  /** No NIP-59 wrap the last REQ before the first point lets through is missed, from any first start over any honest run. */
  ghost predicate NoneMissed(o: Options, delay: nat) {
    forall c: World, run: seq<CoverStep>, x: Copy :: FirstStart(c) && HonestRun(o, c, run, delay)
      ==> NotMissed(RunCover(o, c, run), x)
  }

  ghost predicate NotMissed(u: World, x: Copy) {
    Nip59(x.wrap) && SinceBase(u, x) ==> !Missed(u, x)
  }

  /** The only relay was caught up at time 0, and its point is still that. */
  ghost predicate CaughtUpAtZero(c: World, url: string, now: int, arrived: set<Copy>) {
    && |c.l.feed.conns| == 1 && c.l.feed.conns[0].url == url && c.l.feed.conns[0].CaughtUp()
    && c.l.clock == now && c.from == [0] && c.l.relays == {url} && PointsOf(c.l) == map[url := 0]
    && c.base == map[url := 0] && c.arrived == arrived && c.delivered == {}
  }

  function LateWrap(url: string): Copy {
    Copy(url, Arrival("", 0, -WRAP_JITTER_S))
  }

  lemma CaughtUpFirst(o: Options, url: string, delay: nat) returns (run: seq<CoverStep>)
    ensures HonestRun(o, OneRelay(url, 0), run, delay) && CaughtUpAtZero(RunCover(o, OneRelay(url, 0), run), url, 0, {})
  {
    var c := OneRelay(url, 0);
    OneRelayStarts(url, 0);
    run := FirstReqSent(o, url, 0, delay);
    FeedStaysOk(o, c, run);
    FirstEose(o, RunCover(o, c, run), url, 0, {}, 0, 1, delay);
    RunOn(o, c, run, FeedDoes(SocketMessage(0, 0, Eose(1), 0)), delay);
    run := run + [FeedDoes(SocketMessage(0, 0, Eose(1), 0))];
  }

  lemma WrapComesIn(o: Options, c: World, run: seq<CoverStep>, url: string, delay: nat)
    requires HonestRun(o, c, run, delay) && CaughtUpAtZero(RunCover(o, c, run), url, 0, {})
    ensures var more := run + [Reaches(url, "", -WRAP_JITTER_S)];
            HonestRun(o, c, more, delay) && CaughtUpAtZero(RunCover(o, c, more), url, 0, {LateWrap(url)})
  {
    RunOn(o, c, run, Reaches(url, "", -WRAP_JITTER_S), delay);
  }

  lemma SlackPasses(o: Options, c: World, run: seq<CoverStep>, url: string, delay: nat)
    requires HonestRun(o, c, run, delay) && CaughtUpAtZero(RunCover(o, c, run), url, 0, {LateWrap(url)})
    ensures var more := run + [TimePasses(SLACK_MS)];
            HonestRun(o, c, more, delay) && CaughtUpAtZero(RunCover(o, c, more), url, SLACK_MS, {LateWrap(url)})
  {
    RunOn(o, c, run, TimePasses(SLACK_MS), delay);
  }

  /** With one relay caught up at time 0, a wrap that comes in then and has not been sent when the point moves 61 s later. */
  lemma LateRelayMisses(o: Options, url: string, delay: nat) returns (run: seq<CoverStep>)
    requires delay >= SLACK_MS
    ensures HonestRun(o, OneRelay(url, 0), run, delay)
    ensures var v := RunCover(o, OneRelay(url, 0), run); SinceBase(v, LateWrap(url)) && Missed(v, LateWrap(url))
  {
    var c := OneRelay(url, 0);
    run := CaughtUpFirst(o, url, delay);
    WrapComesIn(o, c, run, url, delay);
    run := run + [Reaches(url, "", -WRAP_JITTER_S)];
    SlackPasses(o, c, run, url, delay);
    run := run + [TimePasses(SLACK_MS)];
    LateTick(o, RunCover(o, c, run), url, delay);
    RunOn(o, c, run, PointsTick, delay);
    run := run + [PointsTick];
  }

  lemma LateTick(o: Options, c: World, url: string, delay: nat)
    requires delay >= SLACK_MS && CaughtUpAtZero(c, url, SLACK_MS, {LateWrap(url)})
    ensures HonestRelay(c, PointsTick, delay)
    ensures var v := NextCover(o, c, PointsTick); SinceBase(v, LateWrap(url)) && Missed(v, LateWrap(url))
  {
    assert CaughtUpRelays(c.l.feed.conns) == [url];
    PointsAdvance(c.l, [url], url);
  }

  /** The minute of slack, over whole runs: no such wrap is missed exactly when relays send within less than 61 s. */
  lemma NoneMissedIff(o: Options, delay: nat)
    ensures NoneMissed(o, delay) <==> delay < SLACK_MS
  {
    if delay < SLACK_MS {
      forall c: World, run: seq<CoverStep>, x: Copy | FirstStart(c) && HonestRun(o, c, run, delay)
        ensures NotMissed(RunCover(o, c, run), x)
      {
        CatchUpCoverage(o, c, run, x, delay);
      }
    } else {
      var run := LateRelayMisses(o, "", delay);
      OneRelayStarts("", 0);
      assert Nip59(LateWrap("").wrap) && !NotMissed(RunCover(o, OneRelay("", 0), run), LateWrap(""));
    }
  }
}
