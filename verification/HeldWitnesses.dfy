/** Concrete runs of the machine in HeldLifecycle that show where a promise ends. */
module HeldWitnesses {
  import opened Basics
  import opened HeldConfig
  import opened HeldStore
  import opened HeldPlan
  import opened HeldLifecycle
  import opened HeldSafety
  import opened HeldCancel
  import opened HeldGiveUp

  lemma RunTwo(cfg: Config, s: State, a: Step, b: Step)
    ensures Run(cfg, s, [a, b]) == Next(cfg, Next(cfg, s, a), b)
  {
    RunOneMore(cfg, s, [], a);
    RunOneMore(cfg, s, [a], b);
    assert [] + [a] == [a] && [a] + [b] == [a, b];
  }

  lemma RunThree(cfg: Config, s: State, a: Step, b: Step, c: Step)
    ensures Run(cfg, s, [a, b, c]) == Next(cfg, Next(cfg, Next(cfg, s, a), b), c)
  {
    RunTwo(cfg, s, a, b);
    RunOneMore(cfg, s, [a, b], c);
    assert [a, b] + [c] == [a, b, c];
  }

  lemma DueAlone(t: Table, pubkey: string, now: int)
    requires |t| == 1 && IsDue(t[0], pubkey, now)
    ensures DueHeld(t, pubkey, now) == [Snap(0, t[0])]
  {
    assert DueAmong(t, pubkey, now, 0) == [];
  }

  /** One submission that no node answers. */
  function Submit(call: nat, event: UnsignedEvent): seq<Step> {
    [SubmitStarts(call, event), SubmitEnds(call, [])]
  }

  function Unanswered(cfg: Config, event: UnsignedEvent, now: int): Row {
    var unlockAt := now + cfg.DelayOr24h(event.kind);
    NewRow(event, EventHash(event), Status.Held, unlockAt, unlockAt + cfg.margin)
  }

  lemma SubmissionHolds(cfg: Config, s: State, call: nat, event: UnsignedEvent)
    requires event.kind in cfg.delays && call !in s.pending
    requires Find(s.rows, EventHash(event)).None?
    ensures var u := Run(cfg, s, Submit(call, event));
            && u.(rows := s.rows) == s && |u.rows| == |s.rows| + 1
            && u.rows == Hold(s.rows, event, EventHash(event), Unanswered(cfg, event, s.clock).unlockAt,
                              Unanswered(cfg, event, s.clock).nextAttemptAt, IsReplaceable(event.kind))
  {
    var t := s.(pending := s.pending[call := Submission(event, s.clock)]);
    RunTwo(cfg, s, SubmitStarts(call, event), SubmitEnds(call, []));
    assert Next(cfg, s, SubmitStarts(call, event)) == t;
    UnansweredIsHeld(cfg, t, call);
    assert t.pending - {call} == s.pending;
  }

  lemma UnansweredIsHeld(cfg: Config, s: State, call: nat)
    requires call in s.pending
    ensures var event, now := s.pending[call].event, s.pending[call].now;
            var held := Unanswered(cfg, event, now);
            Next(cfg, s, SubmitEnds(call, []))
            == s.(rows := Hold(s.rows, event, EventHash(event), held.unlockAt, held.nextAttemptAt, IsReplaceable(event.kind)),
                  pending := s.pending - {call})
  {
    var event, now := s.pending[call].event, s.pending[call].now;
    var hold := HoldOp(cfg, event, FirstUnlock(cfg, event.kind, [], now));
    assert AllRefusals([]) == [] && SubmitOps(cfg, event, now, []) == [hold];
    ApplyOne(s.rows, hold);
  }

  lemma HeldFromInit(cfg: Config, clock: int, event: UnsignedEvent)
    requires event.kind in cfg.delays
    ensures Reached(cfg, clock, Submit(0, event)) == Init(clock).(rows := [Unanswered(cfg, event, clock)])
  {
    assert Find([], EventHash(event)).None? && !NewerHeld([], event);
    SubmissionHolds(cfg, Init(clock), 0, event);
  }

  // ------------------------------------------------------------- no bound with rate limits

  /** Between two passes the table holds one row, and it is still held. */
  predicate OneHeld(s: State, pubkey: string) {
    s.pass.Idle? && |s.rows| == 1 && s.rows[0].status.Held? && s.rows[0].pubkey == pubkey
  }

  function RateLimited(retryAt: int): seq<PeerRefusal> {
    [PeerRefusal("", None, Code.RateLimited, None, Some(retryAt))]
  }

  /** The row comes due, is asked for, and a node answers that its rate limit ends at once. */
  function Round(s: State, pubkey: string): seq<Step>
    requires OneHeld(s, pubkey)
  {
    var t := Max(s.clock, s.rows[0].nextAttemptAt);
    [Tick(t), PassStarts(pubkey), SignRefused(RateLimited(t))]
  }

  lemma LimitedPlan(cfg: Config, held: Row, now: int)
    ensures PlanRetry(cfg, held, RateLimited(now), now) == RetryPlan(false, now + cfg.margin, None, None)
    ensures RateLimitEnd(RateLimited(now)) == Some(now)
  {
    var r := RateLimited(now);
    assert r[0] in r && r[1..] == [];
  }

  lemma RoundAsksOnceMore(cfg: Config, s: State, pubkey: string)
    requires OneHeld(s, pubkey)
    ensures var u := Run(cfg, s, Round(s, pubkey)); OneHeld(u, pubkey) && Requests(u.calls, 0) == Requests(s.calls, 0) + 1
  {
    var t := Max(s.clock, s.rows[0].nextAttemptAt);
    RunThree(cfg, s, Tick(t), PassStarts(pubkey), SignRefused(RateLimited(t)));
    var a := Next(cfg, s, Tick(t));
    DueAlone(a.rows, pubkey, t);
    var h := Snap(0, s.rows[0]);
    var b := Next(cfg, a, PassStarts(pubkey));
    assert b == a.(pass := Busy(t, [h], AwaitSign), calls := a.calls + [SignCall(0, t)]);
    LimitedPlan(cfg, h.row, t);
    ApplyOne(b.rows, FailureOps(cfg, h, RateLimited(t), t)[0]);
    RequestsOneMore(s.calls, SignCall(0, t), 0);
  }

  /** No restart, and every refusal names the end of a rate limit. */
  ghost predicate OnlyLimits(steps: seq<Step>) {
    forall k :: 0 <= k < |steps| ==> !steps[k].Restart? && (steps[k].SignRefused? ==> RateLimitEnd(steps[k].refusals).Some?)
  }

  lemma RoundIsLimited(cfg: Config, s: State, pubkey: string)
    requires OneHeld(s, pubkey)
    ensures OnlyLimits(Round(s, pubkey))
  {
    LimitedPlan(cfg, s.rows[0], Max(s.clock, s.rows[0].nextAttemptAt));
  }

  /**
   * A row that rate limits postpone is never given up: for every n there is a run
   * without a restart that re-requests one held row n times, each answer naming
   * the end of a rate limit, after which the row is held as before.
   */
  lemma {:induction false} RateLimitsNeverGiveUp(cfg: Config, clock: int, event: UnsignedEvent, n: nat) returns (steps: seq<Step>)
    requires event.kind in cfg.delays
    ensures var s := Reached(cfg, clock, steps); OneHeld(s, event.pubkey) && Requests(s.calls, 0) == n
    ensures OnlyLimits(steps)
  {
    if n == 0 {
      steps := Submit(0, event);
      HeldFromInit(cfg, clock, event);
    } else {
      var front := RateLimitsNeverGiveUp(cfg, clock, event, n - 1);
      steps := AnotherRound(cfg, clock, event.pubkey, front);
    }
  }

  lemma AnotherRound(cfg: Config, clock: int, pubkey: string, front: seq<Step>) returns (steps: seq<Step>)
    requires OneHeld(Reached(cfg, clock, front), pubkey) && OnlyLimits(front)
    ensures var s, u := Reached(cfg, clock, front), Reached(cfg, clock, steps);
            OneHeld(u, pubkey) && Requests(u.calls, 0) == Requests(s.calls, 0) + 1 && OnlyLimits(steps)
  {
    var s := Reached(cfg, clock, front);
    RoundAsksOnceMore(cfg, s, pubkey);
    RunSplits(cfg, Init(clock), front, Round(s, pubkey));
    RoundIsLimited(cfg, s, pubkey);
    steps := front + Round(s, pubkey);
  }

  // ------------------------------------------------------------- a cancel that does not hold

  lemma AskedFor(cfg: Config, s: State, t: int)
    requires s.pass.Idle? && |s.rows| == 1 && s.rows[0].status.Held? && s.rows[0].nextAttemptAt <= t && s.clock <= t
    ensures Run(cfg, s, [Tick(t), PassStarts(s.rows[0].pubkey)])
            == s.(clock := t, pass := Busy(t, [Snap(0, s.rows[0])], AwaitSign), calls := s.calls + [SignCall(0, t)])
  {
    RunTwo(cfg, s, Tick(t), PassStarts(s.rows[0].pubkey));
    DueAlone(s.rows, s.rows[0].pubkey, t);
  }

  /** The first event held and asked for. */
  function Waiting(cfg: Config, clock: int, a: UnsignedEvent): State {
    var row := Unanswered(cfg, a, clock);
    var t := Max(clock, row.nextAttemptAt);
    State(t, [row], Busy(t, [Snap(0, row)], AwaitSign), map[], [SignCall(0, t)])
  }

  lemma FirstAsked(cfg: Config, clock: int, a: UnsignedEvent)
    requires a.kind in cfg.delays
    ensures Reached(cfg, clock, FirstRequest(cfg, clock, a)) == Waiting(cfg, clock, a)
  {
    HeldFromInit(cfg, clock, a);
    RunSplits(cfg, Init(clock), Submit(0, a), [Tick(Waiting(cfg, clock, a).clock), PassStarts(a.pubkey)]);
    AskedFor(cfg, Reached(cfg, clock, Submit(0, a)), Waiting(cfg, clock, a).clock);
  }

  /** One event is held, comes due and is asked for. */
  function FirstRequest(cfg: Config, clock: int, a: UnsignedEvent): seq<Step> {
    Submit(0, a) + [Tick(Waiting(cfg, clock, a).clock), PassStarts(a.pubkey)]
  }

  /** What happens while its signature is awaited: a veto, a cancel, the signature. */
  function TakenBack(a: UnsignedEvent, reporter: string, sig: string): seq<Step> {
    [Notice(EventHash(a), reporter), CancelRequest(0, a.pubkey), SignAnswered(NostrEvent(a, EventHash(a), sig))]
  }

  /**
   * Why the cancel matters, in a run from the start: while the signature of a
   * held event is awaited it is vetoed and then cancelled, and the signature that
   * arrives afterwards is stored and published.
   */
  lemma VetoThenCancelStillPublishes(cfg: Config, clock: int, a: UnsignedEvent, reporter: string, sig: string)
    requires cfg.Valid() && a.kind in cfg.delays
    ensures var asked, more := FirstRequest(cfg, clock, a), TakenBack(a, reporter, sig);
            var vetoed, cancelled := Reached(cfg, clock, asked + more[..1]), Reached(cfg, clock, asked + more[..2]);
            var u := Reached(cfg, clock, asked + more);
            && |vetoed.rows| == |cancelled.rows| == |u.rows| == 1
            && vetoed.rows[0].status.Vetoed? && cancelled.rows[0].status.Cancelled? && u.rows[0].status.Signed?
            && u.calls == cancelled.calls + [PublishCall(0, NostrEvent(a, EventHash(a), sig))]
  {
    var asked, more, s := FirstRequest(cfg, clock, a), TakenBack(a, reporter, sig), Waiting(cfg, clock, a);
    FirstAsked(cfg, clock, a);
    RunsKeepInv(cfg, Init(clock), asked);
    VetoCancelAnswer(cfg, s, reporter, more[2].signed);
    RunThree(cfg, s, more[0], more[1], more[2]);
    RunTwo(cfg, s, more[0], more[1]);
    RunOne(cfg, s, more[0]);
    RunSplits(cfg, Init(clock), asked, more);
    assert more[..2] == [more[0], more[1]] && more[..1] == [more[0]];
    RunSplits(cfg, Init(clock), asked, more[..2]);
    RunSplits(cfg, Init(clock), asked, more[..1]);
  }

  /** Two events of one pubkey and kind that is not replaceable are held. */
  lemma TwoHeld(cfg: Config, clock: int, a: UnsignedEvent, b: UnsignedEvent)
    requires a.kind in cfg.delays && a.kind == b.kind && !IsReplaceable(b.kind) && a != b
    ensures Reached(cfg, clock, Submit(0, a) + Submit(1, b))
            == Init(clock).(rows := [Unanswered(cfg, a, clock), Unanswered(cfg, b, clock)])
  {
    HeldFromInit(cfg, clock, a);
    RunSplits(cfg, Init(clock), Submit(0, a), Submit(1, b));
    var s := Reached(cfg, clock, Submit(0, a));
    SubmissionHolds(cfg, s, 1, b);
  }

  lemma DuePair(t: Table, pubkey: string, now: int)
    requires |t| == 2 && IsDue(t[0], pubkey, now) && IsDue(t[1], pubkey, now) && t[0].nextAttemptAt == t[1].nextAttemptAt
    ensures DueHeld(t, pubkey, now) == [Snap(0, t[0]), Snap(1, t[1])]
  {
    assert DueAmong(t, pubkey, now, 0) == [];
    assert DueAmong(t, pubkey, now, 1) == [Snap(0, t[0])];
    assert InsertByNext([], Snap(1, t[1])) == [Snap(1, t[1])];
    assert [Snap(0, t[0])][1..] == [];
  }

  /** Both come due, the pass asks for the first, and the second is cancelled. */
  function SecondCancelled(cfg: Config, clock: int, a: UnsignedEvent, b: UnsignedEvent): seq<Step> {
    Submit(0, a) + Submit(1, b)
    + [Tick(Max(clock, Unanswered(cfg, a, clock).nextAttemptAt)), PassStarts(a.pubkey), CancelRequest(1, b.pubkey)]
  }

  /** From two held rows on. */
  lemma BothCopied(cfg: Config, s: State, t: int, x: Row, y: Row)
    requires s.pass.Idle? && s.rows == [x, y] && x.status.Held? && y.status.Held? && x.pubkey == y.pubkey
    requires x.nextAttemptAt == y.nextAttemptAt <= t && s.clock <= t
    ensures var u := Run(cfg, s, [Tick(t), PassStarts(x.pubkey), CancelRequest(1, y.pubkey)]);
            && u.rows == [x, y.(status := Cancelled)] && u.pass == Busy(t, [Snap(0, x), Snap(1, y)], AwaitSign)
  {
    RunThree(cfg, s, Tick(t), PassStarts(x.pubkey), CancelRequest(1, y.pubkey));
    DuePair(s.rows, x.pubkey, t);
    ApplyOne(s.rows, OpCancel(1, y.pubkey));
  }

  lemma SecondIsCopied(cfg: Config, clock: int, a: UnsignedEvent, b: UnsignedEvent)
    requires a.kind in cfg.delays && a.kind == b.kind && !IsReplaceable(b.kind) && a.pubkey == b.pubkey && a != b
    ensures var s, y := Reached(cfg, clock, SecondCancelled(cfg, clock, a, b)), Unanswered(cfg, b, clock);
            && |s.rows| == 2 && s.rows[1] == y.(status := Cancelled)
            && s.pass.Busy? && |s.pass.todo| == 2 && s.pass.todo[1] == Snap(1, y)
  {
    TwoHeld(cfg, clock, a, b);
    var x, y := Unanswered(cfg, a, clock), Unanswered(cfg, b, clock);
    var t := Max(clock, x.nextAttemptAt);
    BothCopied(cfg, Init(clock).(rows := [x, y]), t, x, y);
    RunSplits(cfg, Init(clock), Submit(0, a) + Submit(1, b), [Tick(t), PassStarts(a.pubkey), CancelRequest(1, b.pubkey)]);
  }

  /**
   * A cancel of a row further down a pass's copy: in a run from the start an
   * event is cancelled while another one is asked for, and is asked for, signed
   * and published afterwards.
   */
  lemma CancelledIsAskedAgain(cfg: Config, clock: int, a: UnsignedEvent, b: UnsignedEvent) returns (more: seq<Step>)
    requires cfg.Valid() && a.kind in cfg.delays
    requires a.kind == b.kind && !IsReplaceable(b.kind) && a.pubkey == b.pubkey && a != b
    ensures var s := Reached(cfg, clock, SecondCancelled(cfg, clock, a, b));
            var u := Reached(cfg, clock, SecondCancelled(cfg, clock, a, b) + more);
            && |s.rows| == 2 && s.rows[1].event == b && s.rows[1].status.Cancelled?
            && AskedAgain(s, u, 1) && HandedOver(u, 1)
  {
    var before := SecondCancelled(cfg, clock, a, b);
    SecondIsCopied(cfg, clock, a, b);
    RunsKeepInv(cfg, Init(clock), before);
    more := CopyOverrules(cfg, Reached(cfg, clock, before), 1, 1);
    RunSplits(cfg, Init(clock), before, more);
  }

  // ------------------------------------------------------------ two live rows in one slot

  /** The steps: a is held, comes due and is asked for; b, as new, is held; then a's signature arrives. */
  function LateSignature(cfg: Config, clock: int, a: UnsignedEvent, b: UnsignedEvent, sig: string): seq<Step> {
    FirstRequest(cfg, clock, a) + Submit(1, b) + [SignAnswered(NostrEvent(a, EventHash(a), sig))]
  }

  lemma SecondTakesSlot(cfg: Config, s: State, a: UnsignedEvent, b: UnsignedEvent, now: int)
    requires b.kind in cfg.delays && IsReplaceable(b.kind) && s.rows == [Unanswered(cfg, a, now)] && s.pending == map[]
    requires a.pubkey == b.pubkey && a.kind == b.kind && a != b && a.createdAt <= b.createdAt
    ensures var u := Run(cfg, s, Submit(1, b));
            u.rows == [Unanswered(cfg, a, now).(status := Superseded), Unanswered(cfg, b, s.clock)] && u.pass == s.pass
  {
    assert Find(s.rows, EventHash(b)).None? && !NewerHeld(s.rows, b);
    SubmissionHolds(cfg, s, 1, b);
  }

  /**
   * One live row per replaceable slot is lost in a run from the start: the
   * signature of a replaceable event arrives after one as new took its slot.
   */
  lemma LateSignatureTakesSlotBack(cfg: Config, clock: int, a: UnsignedEvent, b: UnsignedEvent, sig: string)
    requires a.kind in cfg.delays && IsReplaceable(a.kind)
    requires a.pubkey == b.pubkey && a.kind == b.kind && a != b && a.createdAt <= b.createdAt
    ensures var t := Reached(cfg, clock, LateSignature(cfg, clock, a, b, sig)).rows;
            |t| == 2 && t[0].event == a && t[0].status.Signed? && t[1].event == b && t[1].status.Held? && !OneLivePerSlot(t)
  {
    var asked, signed := FirstRequest(cfg, clock, a), NostrEvent(a, EventHash(a), sig);
    FirstAsked(cfg, clock, a);
    RunSplits(cfg, Init(clock), asked, Submit(1, b));
    SecondTakesSlot(cfg, Waiting(cfg, clock, a), a, b, clock);
    RunOneMore(cfg, Init(clock), asked + Submit(1, b), SignAnswered(signed));
    LateAnswer(cfg, Reached(cfg, clock, asked + Submit(1, b)), signed);
  }

  lemma LateAnswer(cfg: Config, s: State, signed: NostrEvent)
    requires AwaitingSign(s) && s.pass.todo[0].id == 0 < |s.rows| && !s.rows[0].status.Vetoed? && signed.id == s.pass.todo[0].row.eventId
    ensures Next(cfg, s, SignAnswered(signed)).rows == s.rows[0 := SetFields(s.rows[0], SignedFields(s.pass.todo[0], signed))]
  {
    ApplyOne(s.rows, OpUpdate(0, SignedFields(s.pass.todo[0], signed)));
  }
}
