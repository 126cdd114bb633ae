/**
 * How one requester and one responder get back in step
 * (src/cinderella/resync.ts): what a ping repairs, and why pings to the same
 * peer are never in flight twice.
 */
module NonceResync {
  import opened Basics
  import opened NoncePool

  /** incoming: the responder's nonces the requester holds; outgoing: those the responder counts as given to it. */
  datatype Pair = Pair(incoming: set<Nonce>, outgoing: set<Nonce>)

  /** The responder counts every nonce the requester holds, so whatever it signs with is known. */
  ghost predicate InStep(p: Pair) {
    p.incoming <= p.outgoing
  }

  /** The responder's side of one ping that reports `available`; `unused` is the batch of new nonces bifrost would generate. */
  function Answer(cfg: Config, outgoing: set<Nonce>, available: nat, unused: set<Nonce>): (r: (set<Nonce>, set<Nonce>)) {
    var kept := if Stuck(cfg, outgoing, Some(available)) then {} else outgoing;
    if cfg.sendMore(kept) then (kept + unused, unused) else (kept, {})
  }

  /** One whole ping: the requester reports what it holds, the reply is delivered. */
  function Exchange(cfg: Config, p: Pair, unused: set<Nonce>): Pair {
    var (outgoing, batch) := Answer(cfg, p.outgoing, |p.incoming|, unused);
    Pair(p.incoming + batch, outgoing)
  }

  /**
   * What a ping repairs, for any two pools: with at most `critical` nonces left
   * the requester gets the fresh batch; and the pools are in step afterwards
   * exactly when they were before and no held nonce was discarded under it.
   */
  lemma PingRepairs(cfg: Config, p: Pair, unused: set<Nonce>)
    requires cfg.Valid() && unused !! p.incoming && unused !! p.outgoing
    ensures var q := Exchange(cfg, p, unused);
            && (|p.incoming| <= cfg.critical ==> unused <= q.incoming && unused <= q.outgoing)
            && (InStep(q) <==> InStep(p) && (Stuck(cfg, p.outgoing, Some(|p.incoming|)) ==> p.incoming == {}))
            && (|p.incoming| > cfg.critical && !cfg.sendMore(p.outgoing) ==> q == p)
  {
    var q := Exchange(cfg, p, unused);
    assert p.incoming <= q.incoming;
    if Stuck(cfg, p.outgoing, Some(|p.incoming|)) {
      assert q.outgoing == {} + unused && q.incoming == p.incoming + unused;
    }
  }

  /** After discard_incoming one ping always brings the two pools in step, with the whole fresh batch to sign with. */
  lemma DiscardThenPingRecovers(cfg: Config, p: Pair, unused: set<Nonce>)
    requires cfg.Valid() && unused !! p.outgoing
    ensures var q := Exchange(cfg, p.(incoming := {}), unused);
            InStep(q) && q.incoming == unused
  {
    PingRepairs(cfg, p.(incoming := {}), unused);
  }

  /**
   * Why single_flight_pings exists: two pings that both say "I hold none". The
   * second answer keeps the first batch exactly when the responder would have
   * sent more anyway; otherwise it discards it under the requester.
   */
  lemma SecondPingKillsFirstBatch(cfg: Config, outgoing: set<Nonce>, first: set<Nonce>, second: set<Nonce>)
    requires cfg.Valid() && first != {} && first !! outgoing && second !! outgoing + first
    ensures var (after1, batch1) := Answer(cfg, outgoing, 0, first);
            var (after2, batch2) := Answer(cfg, after1, 0, second);
            && batch1 == first && batch2 == second
            && (InStep(Pair(batch1 + batch2, after2)) <==> cfg.sendMore(after1))
  {
    var (after1, batch1) := Answer(cfg, outgoing, 0, first);
    var (after2, batch2) := Answer(cfg, after1, 0, second);
    var x :| x in first;
    assert x in batch1 + batch2;
  }

  // ---------------------------------------------------------------- single flight

  /** Pings and their answers under way, each with the number of its ping. */
  datatype Packet = Asking(ping: nat, available: nat) | Answering(ping: nat, batch: set<Nonce>)

  /**
   * Both pools; the packets under way in either direction, also of pings that
   * have timed out; the ping in flight, if any, and how many callers wait for it;
   * counts of base pings sent and settled.
   */
  datatype Link = Link(pair: Pair, next: nat, wire: seq<Packet>, inflight: Option<nat>, waiting: nat, sent: nat, settled: nat)

  /** RequestArrives, ReplyArrives, Lost: the k-th packet; a reply nobody waits for is stored or not, as bifrost likes. */
  datatype Step = Call | RequestArrives(k: nat, size: nat) | ReplyArrives(k: nat, stored: bool) | TimesOut | Lost(k: nat)

  /** Nonces nobody has seen. */
  function Fresh(next: nat, size: nat): set<Nonce> {
    set i: nat | next <= i < next + size :: Nonce(0, i)
  }

  function Settle(s: Link): Link {
    s.(inflight := None, waiting := 0, settled := s.settled + 1)
  }

  function Without(wire: seq<Packet>, k: nat): seq<Packet>
    requires k < |wire|
  {
    wire[..k] + wire[k + 1..]
  }

  function Next(cfg: Config, s: Link, step: Step): Link {
    match step
    case Call =>
      if s.inflight.Some? then s.(waiting := s.waiting + 1)
      else s.(wire := s.wire + [Asking(s.sent, |s.pair.incoming|)], inflight := Some(s.sent), waiting := 1, sent := s.sent + 1)
    case RequestArrives(k, size) =>
      if k >= |s.wire| || !s.wire[k].Asking? then s
      else
        var (outgoing, batch) := Answer(cfg, s.pair.outgoing, s.wire[k].available, Fresh(s.next, size));
        s.(pair := s.pair.(outgoing := outgoing), wire := Without(s.wire, k) + [Answering(s.wire[k].ping, batch)], next := s.next + size)
    case ReplyArrives(k, stored) =>
      if k >= |s.wire| || !s.wire[k].Answering? then s
      else
        var current := s.inflight == Some(s.wire[k].ping);
        var incoming := if current || stored then s.pair.incoming + s.wire[k].batch else s.pair.incoming;
        var u := s.(pair := s.pair.(incoming := incoming), wire := Without(s.wire, k));
        if current then Settle(u) else u
    case TimesOut => if s.inflight.Some? then Settle(s) else s
    case Lost(k) => if k < |s.wire| then s.(wire := Without(s.wire, k)) else s
  }

  function Run(cfg: Config, s: Link, steps: seq<Step>): Link {
    if steps == [] then s else Next(cfg, Run(cfg, s, steps[..|steps| - 1]), Last(steps))
  }

  /** A run takes its steps one after the other. */
  lemma RunsInOrder(cfg: Config, s: Link, steps: seq<Step>, step: Step)
    ensures Run(cfg, s, []) == s && Run(cfg, s, steps + [step]) == Next(cfg, Run(cfg, s, steps), step)
  {
    assert (steps + [step])[..|steps|] == steps;
  }

  /** Nonces in answers that may still arrive. */
  function UnderWay(wire: seq<Packet>): set<Nonce> {
    set k, x | 0 <= k < |wire| && wire[k].Answering? && x in wire[k].batch :: x
  }

  /** What the requester holds or may yet get. */
  function Reachable(s: Link): set<Nonce> {
    s.pair.incoming + UnderWay(s.wire)
  }

  /** In step, also once everything under way has arrived. */
  ghost predicate StaysUsable(s: Link) {
    Reachable(s) <= s.pair.outgoing
  }

  /** A ping reaches a stuck responder while the requester holds a nonce or one is on its way to it. */
  predicate Costly(cfg: Config, s: Link, step: Step) {
    && step.RequestArrives? && step.k < |s.wire| && s.wire[step.k].Asking?
    && Stuck(cfg, s.pair.outgoing, Some(s.wire[step.k].available)) && Reachable(s) != {}
  }

  /** No nonce in use is one of those still to be made. */
  ghost predicate SerialsOk(s: Link) {
    forall x :: x in s.pair.outgoing || x in Reachable(s) ==> x.serial < s.next
  }

  lemma RemovedPacket(wire: seq<Packet>, k: nat)
    requires k < |wire|
    ensures forall i :: 0 <= i < |Without(wire, k)| ==> Without(wire, k)[i] in wire
    ensures UnderWay(Without(wire, k)) <= UnderWay(wire)
    ensures UnderWay(wire) == UnderWay(Without(wire, k)) + if wire[k].Answering? then wire[k].batch else {}
  {
    var rest := Without(wire, k);
    forall i | 0 <= i < |rest| ensures rest[i] == wire[if i < k then i else i + 1] {
    }
    forall x | x in UnderWay(wire) ensures x in UnderWay(rest) || (wire[k].Answering? && x in wire[k].batch) {
      var j :| 0 <= j < |wire| && wire[j].Answering? && x in wire[j].batch;
      if j != k {
        assert rest[if j < k then j else j - 1] == wire[j];
      }
    }
  }

  lemma AddedPacket(wire: seq<Packet>, p: Packet)
    ensures UnderWay(wire + [p]) == UnderWay(wire) + if p.Answering? then p.batch else {}
  {
    forall x | x in UnderWay(wire) ensures x in UnderWay(wire + [p]) {
      var j :| 0 <= j < |wire| && wire[j].Answering? && x in wire[j].batch;
      assert (wire + [p])[j] == wire[j];
    }
    if p.Answering? {
      forall x | x in p.batch ensures x in UnderWay(wire + [p]) {
        assert (wire + [p])[|wire|] == p;
      }
    }
  }

  /** What a ping's arrival makes of the responder's records and of what is on its way. */
  lemma ArrivalReach(cfg: Config, s: Link, k: nat, size: nat)
    requires cfg.Valid() && k < |s.wire| && s.wire[k].Asking?
    ensures var u := Next(cfg, s, RequestArrives(k, size));
            var (outgoing, batch) := Answer(cfg, s.pair.outgoing, s.wire[k].available, Fresh(s.next, size));
            u.pair.outgoing == outgoing && Reachable(u) == Reachable(s) + batch
  {
    RemovedPacket(s.wire, k);
    var (outgoing, batch) := Answer(cfg, s.pair.outgoing, s.wire[k].available, Fresh(s.next, size));
    AddedPacket(Without(s.wire, k), Answering(s.wire[k].ping, batch));
  }

  lemma OtherStepsReach(cfg: Config, s: Link, step: Step)
    requires !step.RequestArrives?
    ensures var u := Next(cfg, s, step); Reachable(u) <= Reachable(s) && u.pair.outgoing == s.pair.outgoing && u.next == s.next
  {
    if step.Call? {
      AddedPacket(s.wire, Asking(s.sent, |s.pair.incoming|));
    } else if (step.ReplyArrives? || step.Lost?) && step.k < |s.wire| {
      RemovedPacket(s.wire, step.k);
    }
  }

  lemma SerialsStep(cfg: Config, s: Link, step: Step)
    requires cfg.Valid() && SerialsOk(s)
    ensures SerialsOk(Next(cfg, s, step))
  {
    if step.RequestArrives? {
      if step.k < |s.wire| && s.wire[step.k].Asking? {
        ArrivalReach(cfg, s, step.k, step.size);
      }
    } else {
      OtherStepsReach(cfg, s, step);
    }
  }

  /**
   * One step, exactly: what is held or on its way stays known to the responder,
   * unless a ping reaches a stuck responder while there is any such nonce.
   */
  lemma UsableStep(cfg: Config, s: Link, step: Step)
    requires cfg.Valid() && SerialsOk(s) && StaysUsable(s)
    ensures StaysUsable(Next(cfg, s, step)) <==> !Costly(cfg, s, step)
  {
    if !step.RequestArrives? {
      OtherStepsReach(cfg, s, step);
    } else if step.k < |s.wire| && s.wire[step.k].Asking? {
      ArrivalReach(cfg, s, step.k, step.size);
      assert forall x :: x in Fresh(s.next, step.size) ==> x.serial >= s.next;
      if Costly(cfg, s, step) {
        var x :| x in Reachable(s);
        assert x.serial < s.next && x in Reachable(Next(cfg, s, step));
      }
    }
  }

  /** The requester has discarded everything and nothing is on the wire; the responder may count anything. */
  predicate Discarded(s: Link) {
    s.pair.incoming == {} && s.wire == [] && s.inflight.None? && s.waiting == 0 && s.sent == 0 && s.settled == 0
    && forall x :: x in s.pair.outgoing ==> x.serial < s.next
  }

  ghost predicate UsableAt(cfg: Config, s: Link, steps: seq<Step>, n: nat)
    requires n <= |steps|
  {
    StaysUsable(Run(cfg, s, steps[..n]))
  }

  predicate CostlyAt(cfg: Config, s: Link, steps: seq<Step>, n: nat)
    requires n < |steps|
  {
    Costly(cfg, Run(cfg, s, steps[..n]), steps[n])
  }

  ghost predicate UsableThroughout(cfg: Config, s: Link, steps: seq<Step>) {
    forall n :: 0 <= n <= |steps| ==> UsableAt(cfg, s, steps, n)
  }

  ghost predicate NeverCostly(cfg: Config, s: Link, steps: seq<Step>) {
    forall n :: 0 <= n < |steps| ==> !CostlyAt(cfg, s, steps, n)
  }

  lemma UsableSplits(cfg: Config, s: Link, steps: seq<Step>)
    requires steps != []
    ensures UsableThroughout(cfg, s, steps) <==> UsableThroughout(cfg, s, steps[..|steps| - 1]) && UsableAt(cfg, s, steps, |steps|)
  {
    var front := steps[..|steps| - 1];
    forall n | 0 <= n <= |front| ensures UsableAt(cfg, s, front, n) == UsableAt(cfg, s, steps, n) {
      assert front[..n] == steps[..n];
    }
  }

  lemma CostlySplits(cfg: Config, s: Link, steps: seq<Step>)
    requires steps != []
    ensures NeverCostly(cfg, s, steps) <==> NeverCostly(cfg, s, steps[..|steps| - 1]) && !CostlyAt(cfg, s, steps, |steps| - 1)
  {
    var front := steps[..|steps| - 1];
    forall n | 0 <= n < |front| ensures CostlyAt(cfg, s, front, n) == CostlyAt(cfg, s, steps, n) {
      assert front[..n] == steps[..n];
    }
  }

  lemma {:induction false} SerialsOverRuns(cfg: Config, s: Link, steps: seq<Step>)
    requires cfg.Valid() && Discarded(s)
    ensures SerialsOk(Run(cfg, s, steps))
  {
    if steps != [] {
      SerialsOverRuns(cfg, s, steps[..|steps| - 1]);
      SerialsStep(cfg, Run(cfg, s, steps[..|steps| - 1]), Last(steps));
    }
  }

  /**
   * After a discard, over any run in which pings time out, arrive late or get
   * lost: the pools stay in step throughout, also for what is still on its way,
   * exactly when no ping reaches a stuck responder while a nonce is held or on
   * its way.
   */
  lemma {:induction false} StaysInStep(cfg: Config, s: Link, steps: seq<Step>)
    requires cfg.Valid() && Discarded(s)
    ensures UsableThroughout(cfg, s, steps) <==> NeverCostly(cfg, s, steps)
  {
    if steps == [] {
      assert UsableAt(cfg, s, steps, 0);
    } else {
      var front := steps[..|steps| - 1];
      StaysInStep(cfg, s, front);
      UsableSplits(cfg, s, steps);
      CostlySplits(cfg, s, steps);
      if UsableThroughout(cfg, s, front) {
        LastStepUsable(cfg, s, steps);
      }
    }
  }

  lemma LastStepUsable(cfg: Config, s: Link, steps: seq<Step>)
    requires cfg.Valid() && Discarded(s) && steps != [] && UsableThroughout(cfg, s, steps[..|steps| - 1])
    ensures UsableAt(cfg, s, steps, |steps|) <==> !CostlyAt(cfg, s, steps, |steps| - 1)
  {
    var front := steps[..|steps| - 1];
    assert steps[..|steps|] == steps && front[..|front|] == front;
    assert UsableAt(cfg, s, front, |front|);
    SerialsOverRuns(cfg, s, front);
    UsableStep(cfg, Run(cfg, s, front), Last(steps));
  }

  /** A timed-out ping, then a second one that is answered, then the first arrives after all. */
  function LateRequest(size: nat, late: nat): seq<Step> {
    [Call, TimesOut, Call, RequestArrives(1, size), ReplyArrives(1, false), RequestArrives(0, late)]
  }

  lemma {:induction false} RunAppends(cfg: Config, s: Link, steps: seq<Step>, step: Step)
    ensures Run(cfg, s, steps + [step]) == Next(cfg, Run(cfg, s, steps), step)
  {
    assert (steps + [step])[..|steps|] == steps;
  }

  /** The second ping, sent after the first timed out and answered while the first is still under way. */
  lemma SecondAnswered(cfg: Config, s: Link, size: nat)
    requires cfg.Valid() && Discarded(s)
    ensures var batch := Fresh(s.next, size);
            var kept := if cfg.sendMore(s.pair.outgoing) then s.pair.outgoing else {};
            var two := Next(cfg, Next(cfg, Next(cfg, s, Call), TimesOut), Call);
            var t := Next(cfg, Next(cfg, two, RequestArrives(1, size)), ReplyArrives(1, false));
            t.pair == Pair(batch, kept + batch) && t.wire == [Asking(0, 0)] && t.next == s.next + size
  {
    var batch := Fresh(s.next, size);
    var kept := if cfg.sendMore(s.pair.outgoing) then s.pair.outgoing else {};
    var one := Next(cfg, Next(cfg, s, Call), TimesOut);
    assert one.wire == [Asking(0, 0)] && one.inflight.None? && one.sent == 1;
    var two := Next(cfg, one, Call);
    assert two.wire == [Asking(0, 0), Asking(1, 0)] && two.inflight == Some(1) && two.pair == s.pair;
    var three := Next(cfg, two, RequestArrives(1, size));
    assert Answer(cfg, s.pair.outgoing, 0, batch) == (kept + batch, batch);
    assert three.wire == [Asking(0, 0), Answering(1, batch)] && three.pair == Pair({}, kept + batch);
    assert Without(three.wire, 1) == [Asking(0, 0)];
  }

  /**
   * Single flight does not help against a late ping: once it has timed out, a
   * second is sent, and when the first then reaches the responder, which is stuck
   * on the second batch, that batch is discarded under the requester. The pools
   * are in step afterwards exactly when the batch was empty or more would have
   * been sent anyway.
   */
  lemma LateRequestDiscardsBatch(cfg: Config, s: Link, size: nat, late: nat)
    requires cfg.Valid() && Discarded(s)
    ensures var kept := if cfg.sendMore(s.pair.outgoing) then s.pair.outgoing else {};
            InStep(Run(cfg, s, LateRequest(size, late)).pair) <==> size == 0 || cfg.sendMore(kept + Fresh(s.next, size))
  {
    var a := Next(cfg, Next(cfg, Next(cfg, s, Call), TimesOut), Call);
    var t := Next(cfg, Next(cfg, a, RequestArrives(1, size)), ReplyArrives(1, false));
    LateRequestRuns(cfg, s, size, late);
    SecondAnswered(cfg, s, size);
    LateArrival(cfg, t, late);
    assert size > 0 ==> Nonce(0, s.next) in Fresh(s.next, size);
    assert size == 0 ==> Fresh(s.next, size) == {};
  }

  lemma LateArrival(cfg: Config, s: Link, late: nat)
    requires cfg.Valid() && s.wire == [Asking(0, 0)] && InStep(s.pair) && forall x :: x in s.pair.incoming ==> x.serial < s.next
    ensures InStep(Next(cfg, s, RequestArrives(0, late)).pair) <==> s.pair.incoming == {} || cfg.sendMore(s.pair.outgoing)
  {
    assert s.pair.incoming !! Fresh(s.next, late);
  }

  lemma LateRequestRuns(cfg: Config, s: Link, size: nat, late: nat)
    ensures var a := Next(cfg, Next(cfg, Next(cfg, s, Call), TimesOut), Call);
            Run(cfg, s, LateRequest(size, late))
            == Next(cfg, Next(cfg, Next(cfg, a, RequestArrives(1, size)), ReplyArrives(1, false)), RequestArrives(0, late))
  {
    var steps := LateRequest(size, late);
    RunAppends(cfg, s, [], Call);
    RunAppends(cfg, s, [Call], TimesOut);
    RunAppends(cfg, s, [Call, TimesOut], Call);
    RunAppends(cfg, s, steps[..3], steps[3]);
    RunAppends(cfg, s, steps[..4], steps[4]);
    RunAppends(cfg, s, steps[..5], steps[5]);
    assert [] + [Call] == [Call] && [Call] + [TimesOut] == [Call, TimesOut] && [Call, TimesOut] + [Call] == steps[..3];
    assert steps[..3] + [steps[3]] == steps[..4] && steps[..4] + [steps[4]] == steps[..5] && steps[..5] + [steps[5]] == steps;
  }

  /** The one packet of the one ping: it reports nothing held, or brings the batch made for it. */
  ghost predicate OnlyPacket(s: Link, first: nat, made: Option<nat>) {
    && |s.wire| <= s.sent
    && forall k :: 0 <= k < |s.wire| ==>
         && s.wire[k].ping == 0
         && (s.wire[k].Asking? ==> s.wire[k].available == 0 && made.None?)
         && (s.wire[k].Answering? ==> made.Some? && s.wire[k].batch == Fresh(first, made.value))
  }

  /**
   * Until a ping settles: one base ping, and everybody waits for it. `first` is the
   * first unused number at the start, `made` how many nonces were made for the ping
   * when it arrived; the responder counts them.
   */
  ghost predicate OnePing(s: Link, calls: nat, first: nat, made: Option<nat>) {
    && s.sent == (if calls > 0 then 1 else 0) && s.waiting == calls && s.inflight == (if calls > 0 then Some(0) else None)
    && s.pair.incoming == {} && OnlyPacket(s, first, made)
    && (if made.Some? then Fresh(first, made.value) <= s.pair.outgoing && calls > 0 else s.next == first)
  }

  /** How many callers asked for a ping. */
  function Calls(steps: seq<Step>): nat {
    if steps == [] then 0 else Calls(steps[..|steps| - 1]) + if Last(steps).Call? then 1 else 0
  }

  function MadeBy(s: Link, step: Step, made: Option<nat>): Option<nat> {
    if made.Some? then made
    else if step.RequestArrives? && step.k < |s.wire| && s.wire[step.k].Asking? then Some(step.size)
    else None
  }

  /** How many nonces were made for the first ping of a run that arrived. */
  function Made(cfg: Config, s: Link, steps: seq<Step>): Option<nat> {
    if steps == [] then None
    else
      var front := steps[..|steps| - 1];
      MadeBy(Run(cfg, s, front), Last(steps), Made(cfg, s, front))
  }

  lemma OnePingStep(cfg: Config, s: Link, calls: nat, step: Step, first: nat, made: Option<nat>)
    requires cfg.Valid() && OnePing(s, calls, first, made) && Next(cfg, s, step).settled == s.settled
    ensures OnePing(Next(cfg, s, step), calls + if step.Call? then 1 else 0, first, MadeBy(s, step, made))
  {
  }

  lemma {:induction false} OnePingOverRuns(cfg: Config, s: Link, steps: seq<Step>)
    requires cfg.Valid() && Discarded(s) && Run(cfg, s, steps).settled == 0
    ensures OnePing(Run(cfg, s, steps), Calls(steps), s.next, Made(cfg, s, steps))
  {
    if steps != [] {
      var front := steps[..|steps| - 1];
      OnePingOverRuns(cfg, s, front);
      OnePingStep(cfg, Run(cfg, s, front), Calls(front), Last(steps), s.next, Made(cfg, s, front));
    }
  }

  /**
   * Single flight: after a discard, however many callers ping and whenever they
   * do, exactly one base ping is sent until it is settled, every caller waits for
   * it, and after its reply the pools are in step, with the batch made when the
   * ping arrived held whole, all of it fresh, and nothing under way.
   */
  lemma OnePingUntilSettled(cfg: Config, s: Link, steps: seq<Step>, k: nat, stored: bool)
    requires cfg.Valid() && Discarded(s) && Run(cfg, s, steps).settled == 0
    ensures var t := Run(cfg, s, steps);
            && t.sent == (if Calls(steps) > 0 then 1 else 0) && t.waiting == Calls(steps)
            && (k < |t.wire| && t.wire[k].Answering? ==>
                  var u := Next(cfg, t, ReplyArrives(k, stored));
                  && Made(cfg, s, steps).Some? && u.pair.incoming == Fresh(s.next, Made(cfg, s, steps).value)
                  && InStep(u.pair) && u.sent == 1 == u.settled && u.wire == [] && u.waiting == 0 && u.inflight.None?)
  {
    OnePingOverRuns(cfg, s, steps);
  }

  /**
   * The ends of a ping. Its own reply and its timeout end the waiting of all its
   * callers, a reply that comes later ends nobody's; a late reply's nonces are held
   * afterwards exactly if it is stored, and a lost packet is only gone.
   */
  lemma EndsOfAPing(cfg: Config, s: Link, k: nat, stored: bool)
    ensures var u := Next(cfg, s, TimesOut);
            if s.inflight.Some? then u == s.(inflight := None, waiting := 0, settled := s.settled + 1) else u == s
    ensures k < |s.wire| && s.wire[k].Answering? ==>
              var u, current := Next(cfg, s, ReplyArrives(k, stored)), s.inflight == Some(s.wire[k].ping);
              && u.wire == s.wire[..k] + s.wire[k + 1..] && u.pair.outgoing == s.pair.outgoing
              && u.pair.incoming == s.pair.incoming + (if current || stored then s.wire[k].batch else {})
              && (current ==> u.waiting == 0 && u.inflight.None? && u.settled == s.settled + 1)
              && (!current ==> u.waiting == s.waiting && u.inflight == s.inflight && u.settled == s.settled)
    ensures k < |s.wire| ==> Next(cfg, s, Lost(k)) == s.(wire := s.wire[..k] + s.wire[k + 1..])
  {
  }

  // ---------------------------------------------------------- the gate as an object

  /** x-only form of a peer's pubkey. */
  function Key(pubkey: string): string {
    if |pubkey| == 66 then pubkey[2..] else pubkey
  }

  /** A compressed key and its x-only form name the same peer; the two bytes in front do not matter. */
  lemma KeysOfOnePeer(x: string, prefix: string)
    requires |x| == 64 && |prefix| == 2
    ensures Key(prefix + x) == Key(x) == x
  {
  }

  /** single_flight_pings: one promise per key; `pings` records the base pings sent. */
  class PingGate {
    var inflight: map<string, nat>
    var pings: seq<string>

    constructor ()
      ensures inflight == map[] && pings == []
    {
      inflight, pings := map[], [];
    }

    /** Every promise in flight is the number of its own base ping, so no two are shared between keys. */
    ghost predicate Valid()
      reads this
    {
      && (forall k :: k in inflight ==> inflight[k] < |pings| && pings[inflight[k]] == k)
      && (forall k, i :: k in inflight && inflight[k] < i < |pings| ==> pings[i] != k)
    }

    /** Answers the promise of the ping in flight for this peer, sending one only if there is none. */
    method Ping(pubkey: string) returns (promise: nat)
      requires Valid()
      modifies this
      ensures Valid() && inflight == old(inflight)[Key(pubkey) := promise]
      ensures pings == if Key(pubkey) in old(inflight) then old(pings) else old(pings) + [Key(pubkey)]
      ensures promise < |pings| && pings[promise] == Key(pubkey)
    {
      var key := Key(pubkey);
      if key in inflight {
        promise := inflight[key];
      } else {
        promise := |pings|;
        pings := pings + [key];
        inflight := inflight[key := promise];
      }
    }

    /** The ping for this key was answered, or failed. */
    method Settled(key: string)
      requires Valid()
      modifies this`inflight
      ensures Valid() && inflight == old(inflight) - {key}
    {
      inflight := inflight - {key};
    }
  }
}
