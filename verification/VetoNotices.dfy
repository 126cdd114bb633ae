/**
 * Veto notices from share nodes (src/cinderella/veto-notices.ts): the catch-up
 * point kept per relay, the `since` of the next REQ, and which gift wraps count.
 * Points are milliseconds; event timestamps and `since` are seconds.
 */
module VetoNotices {
  import opened Basics
  import opened RelayFeed
  import opened RelayFeedSafety
  import opened RelayFeedCallbacks
  import HeldConfig
  import HeldStore

  const WRAP_JITTER_S: int := 2 * 24 * 3600
  const SEEN_RETENTION_MS: int := 3 * 24 * 3_600_000

  // ------------------------------------------------------------------ catch-up points

  /** The stored 'seen_until': nothing yet, one point for all relays (older versions), or a point per relay. */
  datatype SeenUntil = Never | Single(at: int) | PerRelay(points: map<string, int>)

  function Points(s: SeenUntil, relays: set<string>): map<string, int> {
    match s
    case Never => map[]
    case Single(at) => map r | r in relays :: at
    case PerRelay(points) => points
  }

  /** The relays of `list` are caught up now; nothing is stored for an empty list. */
  function Advance(s: SeenUntil, relays: set<string>, list: seq<string>, now: int): (u: SeenUntil)
    ensures Points(u, relays).Keys == Points(s, relays).Keys + set r | r in list
    ensures forall r :: r in Points(u, relays) ==> Points(u, relays)[r] == if r in list then now else Points(s, relays)[r]
  {
    if list == [] then s else PerRelay(Points(s, relays) + map r | r in list :: now)
  }

  ghost predicate IsLeast(m: map<string, int>, x: int) {
    (exists k :: k in m && m[k] == x) && forall k :: k in m ==> x <= m[k]
  }

  lemma {:induction false} LeastExists(m: map<string, int>)
    requires m != map[]
    ensures exists x :: IsLeast(m, x)
    decreases |m|
  {
    var k :| k in m;
    var rest := m - {k};
    if rest == map[] {
      assert m.Keys == {k} by { forall j | j in m ensures j == k { assert j != k ==> j in rest; } }
      assert IsLeast(m, m[k]);
    } else {
      LeastExists(rest);
      var x :| IsLeast(rest, x);
      assert forall j :: j in m ==> j == k || j in rest;
      assert IsLeast(m, Min(x, m[k]));
    }
  }

  /** Where the next REQ to a relay starts: its own point, else the oldest point of any relay, else now. */
  ghost function From(s: SeenUntil, relays: set<string>, relay: string, now: int): int {
    var points := Points(s, relays);
    if relay in points then points[relay]
    else if points == map[] then now
    else
      LeastExists(points);
      var x :| IsLeast(points, x); x
  }

  /** The whole seconds of a start, less the wrap jitter and a minute. */
  function SinceOf(from: int): int {
    from / 1000 - WRAP_JITTER_S - 60
  }

  ghost function Since(s: SeenUntil, relays: set<string>, relay: string, now: int): int {
    SinceOf(From(s, relays, relay, now))
  }

  /** The whole second the start falls in, less 2 days and a minute. */
  ghost predicate StartsBefore(since: int, at: int) {
    (since + 172_860) * 1000 <= at < (since + 172_861) * 1000
  }

  /**
   * Where a REQ starts: at the relay's own point or, when it has none, at the
   * oldest point there is; at now when there is none. An old single point is
   * the point of every listed relay.
   */
  lemma ReqStartsAtPoint(s: SeenUntil, relays: set<string>, relay: string, now: int)
    ensures s.Never? ==> StartsBefore(Since(s, relays, relay, now), now)
    ensures s.Single? && relay in relays ==> StartsBefore(Since(s, relays, relay, now), s.at)
    ensures s.PerRelay? && relay in s.points ==> StartsBefore(Since(s, relays, relay, now), s.points[relay])
    ensures s.PerRelay? && s.points == map[] ==> StartsBefore(Since(s, relays, relay, now), now)
    ensures s.PerRelay? && relay !in s.points && s.points != map[] ==>
              exists r :: r in s.points && StartsBefore(Since(s, relays, relay, now), s.points[r])
                          && forall q :: q in s.points ==> s.points[r] <= s.points[q]
  {
    var points := Points(s, relays);
    if s.PerRelay? && relay !in points && points != map[] {
      LeastExists(points);
      var x := From(s, relays, relay, now);
      assert IsLeast(points, x);
      var r :| r in points && points[r] == x;
      assert StartsBefore(SinceOf(x), points[r]);
    }
  }

  // --------------------------------------------------------------- the listener's runs

  /** The listener: its feed, the stored points and the clock. */
  datatype Listener = Listener(feed: Feed, relays: set<string>, seenUntil: SeenUntil, clock: int)

  datatype ListenerStep = FeedStep(step: Step) | AdvanceTick | Tick(to: int)

  function Url(f: Feed, i: nat): string {
    if i < |f.conns| then f.conns[i].url else ""
  }

  /** caught_up_relays: connected and past their EOSE. */
  function CaughtUpRelays(conns: seq<Conn>): (r: seq<string>)
    ensures forall u :: u in r <==> exists i :: 0 <= i < |conns| && conns[i].url == u && conns[i].CaughtUp()
  {
    if conns == [] then []
    else
      assert conns == [conns[0]] + conns[1..];
      (if conns[0].CaughtUp() then [conns[0].url] else []) + CaughtUpRelays(conns[1..])
  }

  /** The relay an EOSE callback of this step names, if it makes one. */
  function ToAdvance(f: Feed, step: Step): seq<string> {
    var called := Delivered(f, step);
    if |called| == 1 && called[0].OnCaughtUp? then [Url(f, called[0].conn)] else []
  }

  function NextListener(o: Options, l: Listener, step: ListenerStep): Listener {
    match step
    case FeedStep(st) => l.(feed := Next(o, l.feed, st), seenUntil := Advance(l.seenUntil, l.relays, ToAdvance(l.feed, st), l.clock))
    case AdvanceTick => l.(seenUntil := Advance(l.seenUntil, l.relays, CaughtUpRelays(l.feed.conns), l.clock))
    case Tick(to) => if l.clock <= to then l.(clock := to) else l
  }

  function RunListener(o: Options, l: Listener, steps: seq<ListenerStep>): Listener {
    if steps == [] then l else NextListener(o, RunListener(o, l, steps[..|steps| - 1]), Last(steps))
  }

  /** A run takes its steps one after the other. */
  lemma ListenerRunsInOrder(o: Options, l: Listener, steps: seq<ListenerStep>, step: ListenerStep)
    ensures RunListener(o, l, []) == l && RunListener(o, l, steps + [step]) == NextListener(o, RunListener(o, l, steps), step)
  {
    assert (steps + [step])[..|steps|] == steps;
  }

  function PointsOf(l: Listener): map<string, int> {
    Points(l.seenUntil, l.relays)
  }

  ghost predicate ListenerOk(o: Options, l: Listener) {
    Inv(o, l.feed) && forall r :: r in PointsOf(l) ==> PointsOf(l)[r] <= l.clock
  }

  lemma FeedStepKeepsUrls(o: Options, f: Feed, i: nat, ws: nat, msg: Message, now: int)
    requires Inv(o, f) && i < |f.conns| && Delivered(f, SocketMessage(i, ws, msg, now)) == [OnCaughtUp(i)]
    ensures var g := Next(o, f, SocketMessage(i, ws, msg, now));
            i < |g.conns| && g.conns[i].url == f.conns[i].url && g.conns[i].CaughtUp()
  {
    DeliveredByFields(o, f, i, ws, msg, now);
    assert ConnOk(f, i);
  }

  /**
   * A relay's point moves only while that relay is open and past its EOSE, and
   * then to now; no relay ever loses its point.
   */
  lemma PointMovesOnlyWhenLive(o: Options, l: Listener, step: ListenerStep, r: string)
    requires ListenerOk(o, l)
    ensures ListenerOk(o, NextListener(o, l, step))
    ensures r in PointsOf(l) ==> r in PointsOf(NextListener(o, l, step)) && PointsOf(l)[r] <= PointsOf(NextListener(o, l, step))[r]
    ensures var u := NextListener(o, l, step);
            r in PointsOf(u) && (r !in PointsOf(l) || PointsOf(u)[r] != PointsOf(l)[r]) ==>
              PointsOf(u)[r] == l.clock && exists i :: 0 <= i < |u.feed.conns| && u.feed.conns[i].url == r && u.feed.conns[i].CaughtUp()
  {
    var u := NextListener(o, l, step);
    if step.FeedStep? {
      StepKeepsInv(o, l.feed, step.step);
      var list := ToAdvance(l.feed, step.step);
      if list != [] {
        var st := step.step;
        FeedStepKeepsUrls(o, l.feed, st.conn, st.ws, st.msg, st.now);
      }
    }
    forall x | x in PointsOf(u) ensures PointsOf(u)[x] <= u.clock {
      assert PointsOf(u)[x] == l.clock || x in PointsOf(l);
    }
  }

  /** Every relay of `live` has its point at now, every other relay the point it had, or none. */
  ghost predicate Advanced(was: map<string, int>, points: map<string, int>, live: set<string>, now: int) {
    && (forall r :: r in points <==> r in was || r in live)
    && (forall r :: r in points ==> points[r] == if r in live then now else was[r])
  }

  /** An EOSE of the current subscription on the current socket moves that relay's point to now, and no other. */
  lemma EoseMovesPoint(o: Options, l: Listener, i: nat, ws: nat, now: int)
    requires ListenerOk(o, l) && i < |l.feed.conns| && l.feed.conns[i].open && l.feed.conns[i].ws == Some(ws)
    ensures var c := l.feed.conns[i];
            var u := NextListener(o, l, FeedStep(SocketMessage(i, ws, Eose(c.subId), now)));
            Advanced(PointsOf(l), PointsOf(u), {c.url}, l.clock)
  {
    var c := l.feed.conns[i];
    DeliveredByFields(o, l.feed, i, ws, Eose(c.subId), now);
    assert ToAdvance(l.feed, SocketMessage(i, ws, Eose(c.subId), now)) == [c.url];
  }

  /** The timer moves the points of the relays that are open and past their EOSE, and no others. */
  lemma TickMovesLivePoints(o: Options, l: Listener, live: set<string>)
    requires forall r :: r in live <==>
      exists i :: 0 <= i < |l.feed.conns| && l.feed.conns[i].url == r && l.feed.conns[i].open && l.feed.conns[i].eose
    ensures var u := NextListener(o, l, AdvanceTick);
            Advanced(PointsOf(l), PointsOf(u), live, l.clock) && u.feed == l.feed && u.clock == l.clock
  {
    var list := CaughtUpRelays(l.feed.conns);
    assert forall r :: r in list <==> r in live;
  }

  /** Under a clock that does not go back, no relay's point ever does, over any run. */
  lemma {:induction false} PointsNeverGoBack(o: Options, l: Listener, steps: seq<ListenerStep>, r: string)
    requires ListenerOk(o, l)
    ensures var u := RunListener(o, l, steps);
            ListenerOk(o, u) && l.clock <= u.clock && (r in PointsOf(l) ==> r in PointsOf(u) && PointsOf(l)[r] <= PointsOf(u)[r])
  {
    if steps != [] {
      PointsNeverGoBack(o, l, steps[..|steps| - 1], r);
      PointMovesOnlyWhenLive(o, RunListener(o, l, steps[..|steps| - 1]), Last(steps), r);
    }
  }

  // ------------------------------------------------------------------------- coverage

  /** A gift wrap at a relay: when it arrived there (ms) and its own timestamp (s). */
  datatype Arrival = Arrival(id: string, at: int, createdAt: int)

  /** NIP-59: the timestamp of a wrap lies up to two days in the past. */
  predicate Nip59(w: Arrival) {
    w.createdAt * 1000 >= w.at - 172_800_000
  }

  /** The minute of slack, exactly: a relay clock may lag by less than 61 s plus the part of a second cut off from the point. */
  lemma SlackIsExact(s: SeenUntil, relays: set<string>, relay: string, now: int, lag: nat)
    ensures var from := From(s, relays, relay, now);
            (forall w: Arrival :: w.at + lag >= from && Nip59(w) ==> w.createdAt >= Since(s, relays, relay, now))
            <==> lag < 61_000 + from % 1000
  {
    var from := From(s, relays, relay, now);
    var at := from - lag;
    // the earliest timestamp a wrap arriving at `at` may carry
    var earliest := (at + 999) / 1000 - WRAP_JITTER_S;
    var w := Arrival("", at, earliest);
    assert Nip59(w);
    if lag < 61_000 + from % 1000 {
      forall x: Arrival | x.at + lag >= from && Nip59(x) ensures x.createdAt >= Since(s, relays, relay, now) {
        assert x.createdAt * 1000 >= at - WRAP_JITTER_S * 1000;
      }
    } else {
      assert earliest < Since(s, relays, relay, now);
    }
  }

  // ---------------------------------------------------------------------- gift wraps

  /** A gift wrap as onWrap sees it: what unwrap_verified and the notice check make of it. */
  datatype Wrap = Wrap(id: string, wellShaped: bool, unwrapped: Option<Unwrapped>)
  datatype Unwrapped = Unwrapped(sender: string, notice: Option<HeldStore.EventId>)

  datatype Outcome = Vetoed | NotHeld | UnknownSender | Unverified | NotANotice

  /** The wrap carries a veto notice for this event, verified and from a node the gateway is configured with. */
  ghost predicate GenuineNotice(w: Wrap, allowed: set<string>, eventId: HeldStore.EventId) {
    w.wellShaped && w.unwrapped.Some? && w.unwrapped.value.sender in allowed && w.unwrapped.value.notice == Some(eventId)
  }

  predicate HeldRow(t: HeldStore.Table, eventId: HeldStore.EventId) {
    exists i :: 0 <= i < |t| && t[i].eventId == eventId && t[i].status.Held?
  }

  function OutcomeOf(t: HeldStore.Table, w: Wrap, allowed: set<string>): Outcome {
    if w.unwrapped.None? then Unverified
    else if w.unwrapped.value.sender !in allowed then UnknownSender
    else if w.unwrapped.value.notice.None? then NotANotice
    else if HeldRow(t, w.unwrapped.value.notice.value) then Vetoed
    else NotHeld
  }

  /** What the listener stores: the wraps handled, with when, and the held events. */
  datatype Notices = Notices(seen: map<string, int>, rows: HeldStore.Table)

  function OnWrap(n: Notices, w: Wrap, allowed: set<string>, now: int): Notices {
    if !w.wellShaped || w.id in n.seen then n
    else
      var outcome := OutcomeOf(n.rows, w, allowed);
      if outcome.Vetoed? || outcome.NotHeld? then
        Notices((map id | id in n.seen && now - n.seen[id] <= SEEN_RETENTION_MS :: n.seen[id])[w.id := now],
                HeldStore.Veto(n.rows, w.unwrapped.value.notice.value, w.unwrapped.value.sender))
      else n
  }

  /** Only verified notices from configured nodes leave a mark: anything else changes nothing at all. */
  lemma JunkLeavesNoMark(n: Notices, w: Wrap, allowed: set<string>, now: int)
    requires forall eventId :: !GenuineNotice(w, allowed, eventId)
    ensures OnWrap(n, w, allowed, now) == n
  {
    if w.wellShaped && w.unwrapped.Some? && w.unwrapped.value.notice.Some? {
      assert !GenuineNotice(w, allowed, w.unwrapped.value.notice.value);
    }
  }

  /** After a wrap that vetoes an event, its row is still held exactly when it was held and this wrap was already on record. */
  lemma NoticeApplies(n: Notices, w: Wrap, allowed: set<string>, now: int, i: nat)
    requires i < |n.rows| && GenuineNotice(w, allowed, n.rows[i].eventId)
    ensures i < |OnWrap(n, w, allowed, now).rows|
    ensures OnWrap(n, w, allowed, now).rows[i].status.Held? <==> n.rows[i].status.Held? && w.id in n.seen
  {
  }

  /** A genuine notice that is not on record vetoes the held rows of its event, names the node that sent it, and leaves the rest. */
  lemma NoticeVetoes(n: Notices, w: Wrap, allowed: set<string>, eventId: HeldStore.EventId, now: int, i: nat)
    requires i < |n.rows| && GenuineNotice(w, allowed, eventId) && w.id !in n.seen
    ensures var u := OnWrap(n, w, allowed, now);
            && |u.rows| == |n.rows|
            && u.rows[i] == if n.rows[i].eventId == eventId && n.rows[i].status.Held?
                            then n.rows[i].(status := HeldStore.Status.Vetoed, vetoedBy := Some(w.unwrapped.value.sender))
                            else n.rows[i]
  {
  }

  /**
   * A genuine notice that is not on record is recorded with the time, and of the
   * other records exactly those of the last 3 days stay, as they were.
   */
  lemma RecordsLastThreeDays(n: Notices, w: Wrap, allowed: set<string>, eventId: HeldStore.EventId, now: int)
    requires GenuineNotice(w, allowed, eventId) && w.id !in n.seen
    ensures var u := OnWrap(n, w, allowed, now);
            && w.id in u.seen && u.seen[w.id] == now
            && (forall id :: id != w.id ==> (id in u.seen <==> id in n.seen && now - n.seen[id] <= 259_200_000))
            && (forall id :: id != w.id && id in u.seen ==> u.seen[id] == n.seen[id])
  {
  }

  /** A wrap as a relay delivers it, at some time. */
  datatype Delivery = Delivery(wrap: Wrap, at: int)

  function RunWraps(n: Notices, allowed: set<string>, wraps: seq<Delivery>): Notices {
    if wraps == [] then n else OnWrap(RunWraps(n, allowed, wraps[..|wraps| - 1]), Last(wraps).wrap, allowed, Last(wraps).at)
  }

  /** Wraps are handled one after the other. */
  lemma WrapsInOrder(n: Notices, allowed: set<string>, wraps: seq<Delivery>, w: Delivery)
    ensures RunWraps(n, allowed, []) == n && RunWraps(n, allowed, wraps + [w]) == OnWrap(RunWraps(n, allowed, wraps), w.wrap, allowed, w.at)
  {
    assert (wraps + [w])[..|wraps|] == wraps;
  }

  /** The clock does not go back, and all of it happens up to 3 days after t. */
  ghost predicate WithinThreeDays(wraps: seq<Delivery>, t: int) {
    forall k :: 0 <= k < |wraps| ==> wraps[k].at <= t + 259_200_000
  }

  /** A record of time t outlives anything that happens in the 3 days after. */
  lemma {:induction false} RecordStays(n: Notices, allowed: set<string>, wraps: seq<Delivery>, id: string, t: int)
    requires id in n.seen && n.seen[id] == t && WithinThreeDays(wraps, t)
    ensures var u := RunWraps(n, allowed, wraps); id in u.seen && u.seen[id] == t
  {
    if wraps != [] {
      var front := wraps[..|wraps| - 1];
      assert forall k :: 0 <= k < |front| ==> front[k] == wraps[k];
      RecordStays(n, allowed, front, id, t);
      assert Last(wraps) == wraps[|wraps| - 1];
    }
  }

  /**
   * Replays are harmless for 3 days: once a genuine notice was handled at time t,
   * then whatever wraps come in up to t + 3 days, a wrap of that id changes neither
   * the held events nor the record.
   */
  lemma ReplayChangesNothing(n: Notices, w: Wrap, allowed: set<string>, eventId: HeldStore.EventId, t: int,
                             wraps: seq<Delivery>, replay: Wrap, now: int)
    requires GenuineNotice(w, allowed, eventId) && w.id !in n.seen && WithinThreeDays(wraps, t) && replay.id == w.id
    ensures var u := RunWraps(OnWrap(n, w, allowed, t), allowed, wraps); OnWrap(u, replay, allowed, now) == u
  {
    RecordsLastThreeDays(n, w, allowed, eventId, t);
    RecordStays(OnWrap(n, w, allowed, t), allowed, wraps, w.id, t);
  }

  /** After more than 3 days the next notice handled drops the record, and a replay is handled like a new wrap. */
  lemma OldRecordIsDropped(n: Notices, w: Wrap, allowed: set<string>, eventId: HeldStore.EventId, now: int, id: string)
    requires GenuineNotice(w, allowed, eventId) && w.id !in n.seen
    requires id in n.seen && id != w.id && now > n.seen[id] + 259_200_000
    ensures id !in OnWrap(n, w, allowed, now).seen
  {
    RecordsLastThreeDays(n, w, allowed, eventId, now);
  }

  /**
   * A notice that comes before the event is held here is recorded as handled all
   * the same: when the event is held afterwards and the relay replays the wrap,
   * the event stays held.
   */
  lemma EarlyNoticeIsLost(n: Notices, w: Wrap, allowed: set<string>, event: HeldStore.UnsignedEvent,
                          unlockAt: int, next: int, now: int, later: int)
    requires GenuineNotice(w, allowed, HeldStore.EventHash(event)) && w.id !in n.seen
    requires HeldStore.Find(n.rows, HeldStore.EventHash(event)).None? && !HeldStore.NewerHeld(n.rows, event)
    ensures var a := OnWrap(n, w, allowed, now);
            var b := a.(rows := HeldStore.Hold(a.rows, event, HeldStore.EventHash(event), unlockAt, next,
                                               HeldConfig.IsReplaceable(event.kind)));
            var c := OnWrap(b, w, allowed, later);
            w.id in a.seen && |c.rows| == |n.rows| + 1 && c.rows[|n.rows|].event == event && c.rows[|n.rows|].status.Held?
  {
    var id := HeldStore.EventHash(event);
    var a := OnWrap(n, w, allowed, now);
    assert a.rows == n.rows by {
      assert forall i :: 0 <= i < |n.rows| ==> n.rows[i].eventId != id;
    }
    var u := HeldStore.Hold(a.rows, event, id, unlockAt, next, HeldConfig.IsReplaceable(event.kind));
    assert |u| == |n.rows| + 1 && u[|n.rows|].status.Held? && u[|n.rows|].event == event;
  }

  /**
   * What handling a wrap comes to: a notice is answered by whether its event is
   * held, and everything else by what is wrong with it, verification first, then
   * the sender, then the contents.
   */
  ghost predicate AnswersNotice(outcome: Outcome, w: Wrap, allowed: set<string>, rows: HeldStore.Table) {
    && (outcome == Unverified <==> w.unwrapped.None?)
    && (outcome == UnknownSender <==> w.unwrapped.Some? && w.unwrapped.value.sender !in allowed)
    && (outcome == NotANotice <==>
          w.unwrapped.Some? && w.unwrapped.value.sender in allowed && w.unwrapped.value.notice.None?)
    && (outcome == Outcome.Vetoed <==>
          && w.unwrapped.Some? && w.unwrapped.value.sender in allowed && w.unwrapped.value.notice.Some?
          && exists i :: 0 <= i < |rows| && rows[i].eventId == w.unwrapped.value.notice.value && rows[i].status.Held?)
  }

  lemma OutcomeAnswers(t: HeldStore.Table, w: Wrap, allowed: set<string>)
    ensures AnswersNotice(OutcomeOf(t, w, allowed), w, allowed, t)
  {
  }

  // ------------------------------------------------------------- the listener's own state

  class NoticeStore {
    const relays: set<string>
    const allowed: set<string>
    const held: HeldStore.HeldEvents
    var seenUntil: SeenUntil
    var seenWraps: map<string, int>

    constructor (relays: set<string>, allowed: set<string>, held: HeldStore.HeldEvents)
      ensures this.relays == relays && this.allowed == allowed && this.held == held
      ensures seenUntil == Never && seenWraps == map[]
    {
      this.relays, this.allowed, this.held, seenUntil, seenWraps := relays, allowed, held, Never, map[];
    }

    method AdvanceTo(list: seq<string>, now: int)
      modifies this`seenUntil
      ensures seenUntil == Advance(old(seenUntil), relays, list, now)
    {
      if list == [] {
        return;
      }
      var next := Points(seenUntil, relays);
      for k := 0 to |list|
        invariant next == Points(seenUntil, relays) + map r | r in list[..k] :: now
      {
        assert list[..k + 1] == list[..k] + [list[k]];
        next := next[list[k] := now];
      }
      assert list[..|list|] == list;
      seenUntil := PerRelay(next);
    }

    function View(): Notices
      reads this, held
    {
      Notices(seenWraps, held.rows)
    }

    method HandleWrap(w: Wrap, now: int) returns (outcome: Option<Outcome>)
      modifies this`seenWraps, held
      ensures View() == OnWrap(old(View()), w, allowed, now)
      ensures outcome.None? <==> !w.wellShaped || w.id in old(seenWraps)
      ensures outcome.Some? ==> AnswersNotice(outcome.value, w, allowed, old(held.rows))
    {
      if !w.wellShaped || w.id in seenWraps {
        return None;
      }
      if w.unwrapped.None? {
        return Some(Unverified);
      }
      if w.unwrapped.value.sender !in allowed {
        return Some(UnknownSender);
      }
      if w.unwrapped.value.notice.None? {
        return Some(NotANotice);
      }
      var changed := held.MarkVetoed(w.unwrapped.value.notice.value, w.unwrapped.value.sender);
      seenWraps := (map id | id in seenWraps && now - seenWraps[id] <= SEEN_RETENTION_MS :: seenWraps[id])[w.id := now];
      outcome := Some(if changed then Vetoed else NotHeld);
    }
  }
}
