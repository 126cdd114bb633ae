/**
 * processDueHeld and signOrHold (src/cinderella/held-events.ts) as they are
 * written: a loop over the due rows that awaits a signature and a publication,
 * and one submission. What the rest of the gateway does during each await, and
 * how the await ends, is given from outside. Each method is proved to be one
 * particular run of the machine in HeldLifecycle, so the results of HeldSafety,
 * HeldCancel and HeldGiveUp are about these loops.
 */
module HeldScheduler {
  import opened Basics
  import opened HeldConfig
  import opened HeldStore
  import opened HeldPlan
  import opened HeldLifecycle
  import opened HeldSafety

  datatype SignReply = Signature(event: NostrEvent) | Refusal(refusals: seq<PeerRefusal>)

  predicate Honest(reply: SignReply) {
    reply.Signature? ==> Sealed(reply.event)
  }

  datatype PublishReply = Results(results: map<string, string>) | Threw

  /**
   * The outside world during a pass: the replies for its n-th row, and what else
   * happens while awaiting them. A signature names the event it was asked for,
   * as SignRounds.CinderellaSign ensures.
   */
  datatype World = World(meanwhile: nat -> seq<Step>, sign: nat -> SignReply, publish: nat -> PublishReply) {
    ghost predicate Valid() {
      && (forall n, k :: 0 <= k < |meanwhile(n)| ==> IsOutside(meanwhile(n)[k]))
      && (forall n: nat :: Honest(sign(n)))
    }
  }

  function SignStep(reply: SignReply): Step {
    match reply
    case Signature(event) => SignAnswered(event)
    case Refusal(refusals) => SignRefused(refusals)
  }

  function PublishStep(reply: PublishReply): Step {
    match reply
    case Results(results) => PublishAnswered(results)
    case Threw => PublishFailed
  }

  /** The pass awaits a publication, with n rows left counting this one. */
  predicate Publishing(s: State, n: nat) {
    s.pass.Busy? && |s.pass.todo| == n && s.pass.phase.AwaitPublish?
  }

  /** What happens while the i-th row's signature is awaited, if it is held, up to the reply. */
  function SigningOf(held: Snap, world: World, i: nat): seq<Step> {
    if held.row.status.Held? then world.meanwhile(2 * i) + [SignStep(world.sign(i))] else []
  }

  /** What happens while its publication is awaited. */
  function PublishingOf(world: World, i: nat): seq<Step> {
    world.meanwhile(2 * i + 1) + [PublishStep(world.publish(i))]
  }

  /** What happens from s on while the pass deals with `todo`, of which the first is its i-th row. */
  function Play(cfg: Config, s: State, todo: seq<Snap>, world: World, i: nat): seq<Step>
    decreases |todo|
  {
    if todo == [] then []
    else
      var t := Run(cfg, s, SigningOf(todo[0], world, i));
      var published := if Publishing(t, |todo|) then PublishingOf(world, i) else [];
      SigningOf(todo[0], world, i) + published + Play(cfg, Run(cfg, t, published), todo[1..], world, i + 1)
  }

  /** The whole pass: it starts, and then each due row is dealt with as the world answers. */
  function PassRun(cfg: Config, s: State, pubkey: string, world: World): seq<Step> {
    [PassStarts(pubkey)] + Play(cfg, Next(cfg, s, PassStarts(pubkey)), DueHeld(s.rows, pubkey, s.clock), world, 0)
  }

  /** A step after the start of a pass: neither a restart nor a new pass, and what signing returns names its event. */
  ghost predicate InOnePass(step: Step) {
    !step.Restart? && !step.PassStarts? && (step.SignAnswered? ==> Sealed(step.signed))
  }

  ghost predicate OnePass(pubkey: string, run: seq<Step>) {
    run != [] && run[0] == PassStarts(pubkey) && forall k :: 1 <= k < |run| ==> InOnePass(run[k])
  }

  ghost predicate AllInOnePass(run: seq<Step>) {
    forall k :: 0 <= k < |run| ==> InOnePass(run[k])
  }

  lemma InOnePassTogether(a: seq<Step>, b: seq<Step>)
    requires AllInOnePass(a) && AllInOnePass(b)
    ensures AllInOnePass(a + b)
  {
  }

  lemma RepliesInOnePass(held: Snap, world: World, i: nat)
    requires world.Valid()
    ensures AllInOnePass(SigningOf(held, world, i)) && AllInOnePass(PublishingOf(world, i))
  {
    assert Honest(world.sign(i));
  }

  lemma {:induction false} PlayIsInOnePass(cfg: Config, s: State, todo: seq<Snap>, world: World, i: nat)
    requires world.Valid()
    ensures AllInOnePass(Play(cfg, s, todo, world, i))
    decreases |todo|
  {
    if todo != [] {
      var asked, published := SigningOf(todo[0], world, i), PublishingOf(world, i);
      RepliesInOnePass(todo[0], world, i);
      var t := Run(cfg, s, asked);
      var then_ := if Publishing(t, |todo|) then published else [];
      PlayIsInOnePass(cfg, Run(cfg, t, then_), todo[1..], world, i + 1);
      InOnePassTogether(asked, then_);
      InOnePassTogether(asked + then_, Play(cfg, Run(cfg, t, then_), todo[1..], world, i + 1));
    }
  }

  /** A pass starts once, and no restart cuts it off. */
  lemma PassRunIsOnePass(cfg: Config, s: State, pubkey: string, world: World)
    requires world.Valid()
    ensures OnePass(pubkey, PassRun(cfg, s, pubkey, world)) && SealedAnswers(PassRun(cfg, s, pubkey, world))
  {
    PlayIsInOnePass(cfg, Next(cfg, s, PassStarts(pubkey)), DueHeld(s.rows, pubkey, s.clock), world, 0);
  }

  // -------------------------------------------------------- every due row is dealt with

  /** The call a due row is dealt with by was made since s0: held rows are asked for, signed ones published. */
  ghost predicate Handled(s0: State, s: State, x: Snap)
    requires x.row.status.Held? || x.row.signed.Some?
  {
    exists c :: c in NewCalls(s0, s) && c.id == x.id
      && if x.row.status.Held? then c.SignCall? else c == PublishCall(x.id, x.row.signed.value)
  }

  ghost predicate Ahead(s: State, x: Snap) {
    s.pass.Busy? && exists k :: 1 <= k < |s.pass.todo| && s.pass.todo[k] == x
  }

  lemma HandledStays(s0: State, s: State, u: State, x: Snap)
    requires (x.row.status.Held? || x.row.signed.Some?) && Handled(s0, s, x) && s0.calls <= s.calls <= u.calls
    ensures Handled(s0, u, x)
  {
    var c :| c in NewCalls(s0, s) && c.id == x.id
      && if x.row.status.Held? then c.SignCall? else c == PublishCall(x.id, x.row.signed.value);
    assert NewCalls(s0, u) == NewCalls(s0, s) + NewCalls(s, u);
  }

  lemma {:induction false} ContinueHandles(s0: State, s: State, now: int, todo: seq<Snap>, k: nat)
    requires k < |todo| && (todo[k].row.status.Held? || todo[k].row.signed.Some?) && s0.calls <= s.calls
    ensures var u := Continue(s, now, todo); Handled(s0, u, todo[k]) || Ahead(u, todo[k])
    decreases |todo|
  {
    var u, h := Continue(s, now, todo), todo[0];
    if h.row.status.Held? || h.row.signed.Some? {
      if k == 0 {
        assert Last(u.calls) in NewCalls(s0, u);
      }
    } else {
      assert todo[1..][k - 1] == todo[k];
      ContinueHandles(s0, s, now, todo[1..], k - 1);
    }
  }

  lemma PassStepHandles(cfg: Config, s0: State, s: State, step: Step, x: Snap)
    requires s0.calls <= s.calls && !IsOutside(step) && !step.Restart? && !step.PassStarts?
    requires (x.row.status.Held? || x.row.signed.Some?) && Ahead(s, x)
    ensures var u := Next(cfg, s, step); Handled(s0, u, x) || Ahead(u, x)
  {
    var u := s.(rows := ApplyAll(s.rows, Ops(cfg, s, step)));
    var k :| 1 <= k < |s.pass.todo| && s.pass.todo[k] == x;
    assert s.pass.todo[1..][k - 1] == x;
    ContinueHandles(s0, u, s.pass.now, s.pass.todo[1..], k - 1);
  }

  lemma StepHandles(cfg: Config, s0: State, s: State, step: Step, x: Snap)
    requires cfg.Valid() && Inv(cfg, s) && s0.calls <= s.calls && !step.Restart? && !step.PassStarts?
    requires (x.row.status.Held? || x.row.signed.Some?) && (Handled(s0, s, x) || Ahead(s, x))
    ensures var u := Next(cfg, s, step); s0.calls <= u.calls && (Handled(s0, u, x) || Ahead(u, x))
  {
    var u := Next(cfg, s, step);
    AnyStep(cfg, s, step);
    if Handled(s0, s, x) {
      HandledStays(s0, s, u, x);
    } else if IsOutside(step) {
      OutsideStep(cfg, s, step);
    } else {
      PassStepHandles(cfg, s0, s, step, x);
    }
  }

  lemma {:induction false} RunHandles(cfg: Config, s0: State, s: State, run: seq<Step>, x: Snap)
    requires cfg.Valid() && Inv(cfg, s) && s0.calls <= s.calls && AllInOnePass(run)
    requires (x.row.status.Held? || x.row.signed.Some?) && (Handled(s0, s, x) || Ahead(s, x))
    ensures var u := Run(cfg, s, run); s0.calls <= u.calls && (Handled(s0, u, x) || Ahead(u, x))
  {
    if run != [] {
      var front := run[..|run| - 1];
      RunHandles(cfg, s0, s, front, x);
      RunsKeepInv(cfg, s, front);
      StepHandles(cfg, s0, Run(cfg, s, front), Last(run), x);
    }
  }

  lemma StartHandles(cfg: Config, s: State, pubkey: string, x: Snap)
    requires Inv(cfg, s) && s.pass.Idle? && x in DueHeld(s.rows, pubkey, s.clock)
    ensures x.row.status.Held? || x.row.signed.Some?
    ensures var u := Next(cfg, s, PassStarts(pubkey)); Handled(s, u, x) || Ahead(u, x)
  {
    var due := DueHeld(s.rows, pubkey, s.clock);
    assert RowOk(s.rows[x.id]);
    var k :| 0 <= k < |due| && due[k] == x;
    ContinueHandles(s, s, s.clock, due, k);
  }

  /** A pass that ran to its end has asked for every due held row and published every due signed one. */
  lemma EveryDueRowIsHandled(cfg: Config, s: State, pubkey: string, run: seq<Step>, x: Snap)
    requires cfg.Valid() && Inv(cfg, s) && s.pass.Idle? && OnePass(pubkey, run) && Run(cfg, s, run).pass.Idle?
    requires x in DueHeld(s.rows, pubkey, s.clock)
    ensures (x.row.status.Held? || x.row.signed.Some?) && Handled(s, Run(cfg, s, run), x)
  {
    var u := Next(cfg, s, PassStarts(pubkey));
    StartHandles(cfg, s, pubkey, x);
    AnyStep(cfg, s, PassStarts(pubkey));
    RunHandles(cfg, s, u, run[1..], x);
    FirstThenRest(cfg, s, run, u);
  }

  lemma FirstThenRest(cfg: Config, s: State, run: seq<Step>, u: State)
    requires run != [] && u == Next(cfg, s, run[0])
    ensures Run(cfg, s, run) == Run(cfg, u, run[1..])
  {
    RunOneMore(cfg, s, [], run[0]);
    assert [] + [run[0]] == run[..1] && run == run[..1] + run[1..];
    RunSplits(cfg, s, run[..1], run[1..]);
  }

  /** Continue never goes back: what is left after it is no longer than what it was given. */
  lemma {:induction false} ContinueShortens(s: State, now: int, todo: seq<Snap>)
    ensures Continue(s, now, todo).pass.Busy? ==> |Continue(s, now, todo).pass.todo| <= |todo|
    decreases |todo|
  {
    if todo != [] {
      ContinueShortens(s, now, todo[1..]);
    }
  }

  lemma OneMore(run: seq<Step>, steps: seq<Step>, i: nat)
    requires i < |steps|
    ensures run + steps[..i] + [steps[i]] == run + steps[..i + 1]
  {
  }

  lemma Regroup(a: seq<Step>, b: seq<Step>, c: seq<Step>, d: seq<Step>)
    ensures a + b + c + d == a + (b + c + d)
  {
  }

  /** What is left to play after one row. */
  lemma PlayGoesOn(cfg: Config, s0: State, run0: seq<Step>, todo: seq<Snap>, world: World, i: nat, published: seq<Step>)
    requires todo != []
    requires published == if Publishing(Run(cfg, s0, run0 + SigningOf(todo[0], world, i)), |todo|) then PublishingOf(world, i) else []
    ensures var run := run0 + SigningOf(todo[0], world, i) + published;
            run + Play(cfg, Run(cfg, s0, run), todo[1..], world, i + 1) == run0 + Play(cfg, Run(cfg, s0, run0), todo, world, i)
  {
    var asked := SigningOf(todo[0], world, i);
    RunSplits(cfg, s0, run0, asked);
    RunSplits(cfg, s0, run0 + asked, published);
    PlayOne(cfg, Run(cfg, s0, run0), todo, world, i, Run(cfg, s0, run0 + asked), published, Run(cfg, s0, run0 + asked + published));
    Regroup(run0, asked, published, Play(cfg, Run(cfg, s0, run0 + asked + published), todo[1..], world, i + 1));
  }

  lemma PlayOne(cfg: Config, s: State, todo: seq<Snap>, world: World, i: nat, t: State, published: seq<Step>, u: State)
    requires todo != [] && t == Run(cfg, s, SigningOf(todo[0], world, i)) && u == Run(cfg, t, published)
    requires published == if Publishing(t, |todo|) then PublishingOf(world, i) else []
    ensures Play(cfg, s, todo, world, i) == SigningOf(todo[0], world, i) + published + Play(cfg, u, todo[1..], world, i + 1)
  {
  }

  /** After the await of a signature the pass publishes if it has one, and has less to do otherwise. */
  lemma PublishesIf(s: State, now: int, todo: seq<Snap>, signed: Option<NostrEvent>)
    requires todo != [] && s.pass.Idle?
    ensures var u := if signed.Some? then Publish(s, now, todo, signed.value) else Continue(s, now, todo[1..]);
            Publishing(u, |todo|) <==> signed.Some?
  {
    ContinueShortens(s, now, todo[1..]);
  }

  /** Steps outside the pass do not look at it. */
  lemma OutsideIgnoresPass(cfg: Config, s: State, pass: Pass, step: Step)
    requires IsOutside(step)
    ensures Next(cfg, s.(pass := pass), step) == Next(cfg, s, step).(pass := pass)
  {
  }

  lemma StaysPending(cfg: Config, s: State, step: Step, call: nat)
    requires IsOutside(step) && !step.SubmitEnds? && call in s.pending
    ensures var u := Next(cfg, s, step); call in u.pending && u.pending[call] == s.pending[call] && u.pass == s.pass
  {
  }

  lemma {:induction false} ContinueIgnoresPass(s: State, pass: Pass, now: int, todo: seq<Snap>)
    ensures Continue(s.(pass := pass), now, todo) == Continue(s, now, todo)
    decreases |todo|
  {
    if todo != [] {
      ContinueIgnoresPass(s, pass, now, todo[1..]);
    }
  }

  /** How a submission the nodes were asked about ends: signed, refused for good by all, or held. */
  ghost predicate Ends(outcome: Outcome, attempts: seq<Attempt>) {
    && (outcome.Ok? <==> exists a :: a in attempts && a.Fulfilled?)
    && (outcome.Ok? ==> FirstFulfilled(attempts, outcome.event))
    && (outcome.RefusedForGood? <==> !outcome.Ok? && EveryoneDenied(AllRefusals(attempts)))
  }

  class Gateway {
    const cfg: Config
    const store: HeldEvents
    var clock: int
    var pending: map<nat, Submission>
    var calls: seq<Call>

    constructor (cfg: Config, clock: int)
      ensures this.cfg == cfg && View() == Init(clock) && fresh(store)
    {
      this.cfg := cfg;
      store := new HeldEvents();
      this.clock, pending, calls := clock, map[], [];
    }

    /** The gateway between two passes. */
    function View(): State
      reads this, store
    {
      State(clock, store.rows, Idle, pending, calls)
    }

    /** A step that is not the pass's own. */
    method OutsideStep(step: Step)
      requires IsOutside(step)
      modifies this, store
      ensures View() == Next(cfg, old(View()), step)
    {
      match step
      case Tick(to) =>
        if clock <= to { clock := to; }
      case SubmitStarts(call, event) =>
        if call !in pending && event.kind in cfg.delays && AnswerFromStore(store.rows, EventHash(event)).None? {
          pending := pending[call := Submission(event, clock)];
        }
      case SubmitEnds(call, attempts) =>
        if call in pending {
          var _ := FinishSubmission(pending[call].event, pending[call].now, attempts);
        }
        pending := pending - {call};
      case Notice(eventId, reporter) =>
        var _ := store.MarkVetoed(eventId, reporter);
        ApplyOne(old(store.rows), OpVeto(eventId, reporter));
      case CancelRequest(id, pubkey) =>
        var _ := store.CancelHeld(id, pubkey);
        ApplyOne(old(store.rows), OpCancel(id, pubkey));
    }

    /** The last part of signOrHold: every node has answered or timed out. */
    method FinishSubmission(event: UnsignedEvent, now: int, attempts: seq<Attempt>) returns (outcome: Outcome)
      modifies store
      ensures store.rows == ApplyAll(old(store.rows), SubmitOps(cfg, event, now, attempts))
      ensures Ends(outcome, attempts)
      ensures outcome.Ok? || outcome.RefusedForGood? ==> store.rows == old(store.rows)
      ensures outcome.StillHeld? ==> outcome.row in store.rows && outcome.row.eventId == EventHash(event)
    {
      var signed := FirstSigned(attempts);
      FirstSignedIsFirst(attempts);
      if signed.Some? {
        return Ok(signed.value);
      }
      var refusals := AllRefusals(attempts);
      if AllDenied(refusals) {
        return RefusedForGood;
      }
      var held := HoldUnsigned(event, now, refusals);
      outcome := StillHeld(held.row);
    }

    method HoldUnsigned(event: UnsignedEvent, now: int, refusals: seq<PeerRefusal>) returns (held: Snap)
      modifies store
      ensures store.rows == ApplyAll(old(store.rows), HoldOps(cfg, event, now, refusals))
      ensures held.row in store.rows && held.row.eventId == EventHash(event)
    {
      var unlockAt := FirstUnlock(cfg, event.kind, refusals, now);
      ghost var hold := HoldOp(cfg, event, unlockAt);
      held := store.HoldEvent(event, EventHash(event), unlockAt, unlockAt + cfg.margin, IsReplaceable(event.kind));
      ApplyOne(old(store.rows), hold);
      var vetoed := FirstVetoed(refusals);
      if vetoed.Some? {
        ApplyTwo(old(store.rows), hold, OpVeto(EventHash(event), vetoed.value.peer));
        held := VetoHeld(held, vetoed.value.peer);
      }
    }

    method VetoHeld(held: Snap, reporter: string) returns (r: Snap)
      requires held.id < |store.rows| && held.row == store.rows[held.id]
      modifies store
      ensures store.rows == Veto(old(store.rows), held.row.eventId, reporter)
      ensures r.id < |store.rows| && r.row == store.rows[r.id] && r.row.eventId == held.row.eventId
    {
      var _ := store.MarkVetoed(held.row.eventId, reporter);
      r := Snap(held.id, store.rows[held.id]);
    }

    /** Whatever happens while the pass awaits a reply. */
    method Await(steps: seq<Step>, ghost pass: Pass, ghost s0: State, ghost run0: seq<Step>)
      requires forall k :: 0 <= k < |steps| ==> IsOutside(steps[k])
      requires Run(cfg, s0, run0) == View().(pass := pass)
      modifies this, store
      ensures Run(cfg, s0, run0 + steps) == View().(pass := pass)
    {
      ghost var run := run0;
      for i := 0 to |steps|
        invariant run == run0 + steps[..i] && Run(cfg, s0, run) == View().(pass := pass)
      {
        RunOneMore(cfg, s0, run, steps[i]);
        OutsideIgnoresPass(cfg, View(), pass, steps[i]);
        OutsideStep(steps[i]);
        run := run + [steps[i]];
        OneMore(run0, steps, i);
      }
      assert steps[..|steps|] == steps;
    }

    method RetryLater(held: Snap, refusals: seq<PeerRefusal>, now: int)
      modifies store
      ensures store.rows == ApplyAll(old(store.rows), FailureOps(cfg, held, refusals, now))
    {
      var plan := PlanRetry(cfg, held.row, refusals, now);
      ApplyOne(store.rows, FailureOps(cfg, held, refusals, now)[0]);
      if NamesVeto(plan) {
        var _ := store.MarkVetoed(held.row.eventId, plan.vetoedBy.value);
      } else {
        store.UpdateHeld(held.id, RetryFields(held.row, plan));
      }
    }

    /** Re-request one due held event: its signature, or nothing if it failed or was vetoed meanwhile. */
    method RequestOne(held: Snap, now: int, meanwhile: seq<Step>, reply: SignReply,
                      ghost todo: seq<Snap>, ghost s0: State, ghost run0: seq<Step>)
      returns (signed: Option<NostrEvent>)
      requires todo != [] && todo[0] == held && held.row.status.Held?
      requires forall k :: 0 <= k < |meanwhile| ==> IsOutside(meanwhile[k])
      requires Run(cfg, s0, run0) == Continue(View(), now, todo)
      modifies this, store
      ensures var run := run0 + (meanwhile + [SignStep(reply)]);
              Run(cfg, s0, run) == if signed.Some? then Publish(View(), now, todo, signed.value) else Continue(View(), now, todo[1..])
    {
      calls := calls + [SignCall(held.id, clock)];
      Await(meanwhile, Busy(now, todo, AwaitSign), s0, run0);
      assert run0 + (meanwhile + [SignStep(reply)]) == run0 + meanwhile + [SignStep(reply)];
      RunOneMore(cfg, s0, run0 + meanwhile, SignStep(reply));
      signed := TakeReply(held, now, reply, todo);
    }

    /** What becomes of the row when its signature, or a refusal, has arrived. */
    method TakeReply(held: Snap, now: int, reply: SignReply, ghost todo: seq<Snap>) returns (signed: Option<NostrEvent>)
      requires todo != [] && todo[0] == held
      modifies store
      ensures Next(cfg, old(View()).(pass := Busy(now, todo, AwaitSign)), SignStep(reply))
              == if signed.Some? then Publish(View(), now, todo, signed.value) else Continue(View(), now, todo[1..])
    {
      ghost var pass := Busy(now, todo, AwaitSign);
      if reply.Refusal? || reply.event.id != held.row.eventId {
        RetryLater(held, if reply.Refusal? then reply.refusals else [], now);
        ContinueIgnoresPass(View(), pass, now, todo[1..]);
        return None;
      }
      if VetoedNow(store.rows, held.id) {
        ContinueIgnoresPass(View(), pass, now, todo[1..]);
        return None;
      }
      ApplyOne(store.rows, OpUpdate(held.id, SignedFields(held, reply.event)));
      store.UpdateHeld(held.id, SignedFields(held, reply.event));
      signed := Some(reply.event);
    }

    /** Publish one signed event and record how it went. */
    method PublishOne(held: Snap, signed: NostrEvent, now: int, meanwhile: seq<Step>, reply: PublishReply,
                      ghost todo: seq<Snap>, ghost s0: State, ghost run0: seq<Step>)
      requires todo != [] && todo[0] == held
      requires forall k :: 0 <= k < |meanwhile| ==> IsOutside(meanwhile[k])
      requires Run(cfg, s0, run0) == Publish(View(), now, todo, signed)
      modifies this, store
      ensures Run(cfg, s0, run0 + (meanwhile + [PublishStep(reply)])) == Continue(View(), now, todo[1..])
    {
      calls := calls + [PublishCall(held.id, signed)];
      Await(meanwhile, Busy(now, todo, AwaitPublish(signed)), s0, run0);
      assert run0 + (meanwhile + [PublishStep(reply)]) == run0 + meanwhile + [PublishStep(reply)];
      RunOneMore(cfg, s0, run0 + meanwhile, PublishStep(reply));
      TakeResults(held, signed, now, reply, todo);
    }

    /** What is recorded when the relays have answered, or publishing failed. */
    method TakeResults(held: Snap, signed: NostrEvent, now: int, reply: PublishReply, ghost todo: seq<Snap>)
      requires todo != [] && todo[0] == held
      modifies store
      ensures Next(cfg, old(View()).(pass := Busy(now, todo, AwaitPublish(signed))), PublishStep(reply))
              == Continue(View(), now, todo[1..])
    {
      var fields := PublishFields(if reply.Results? then Some(reply.results) else None, now);
      ApplyOne(store.rows, OpUpdate(held.id, fields));
      store.UpdateHeld(held.id, fields);
      ContinueIgnoresPass(View(), Busy(now, todo, AwaitPublish(signed)), now, todo[1..]);
    }

    /** The loop of a pass: a copy of the due rows is taken first, then each is dealt with in turn. */
    method ProcessDueHeld(pubkey: string, world: World)
      requires world.Valid()
      modifies this, store
      ensures View() == Run(cfg, old(View()), PassRun(cfg, old(View()), pubkey, world))
      ensures OnePass(pubkey, PassRun(cfg, old(View()), pubkey, world)) && SealedAnswers(PassRun(cfg, old(View()), pubkey, world))
    {
      ghost var s0 := View();
      ghost var whole := PassRun(cfg, s0, pubkey, world);
      var now := clock;
      var due := DueHeld(store.rows, pubkey, now);
      ghost var run := [PassStarts(pubkey)];
      RunOneMore(cfg, s0, [], PassStarts(pubkey));
      assert [] + run == run && due[0..] == due;
      for i := 0 to |due|
        invariant Run(cfg, s0, run) == Continue(View(), now, due[i..])
        invariant run + Play(cfg, Run(cfg, s0, run), due[i..], world, i) == whole
      {
        run := DealWith(due[i], now, i, world, due[i..], s0, run, whole);
        assert due[i..][1..] == due[i + 1..];
      }
      assert due[|due|..] == [] && run == whole;
      PassRunIsOnePass(cfg, s0, pubkey, world);
    }

    /** The body of the loop, for the i-th due row. */
    method DealWith(held: Snap, now: int, i: nat, world: World, ghost todo: seq<Snap>,
                    ghost s0: State, ghost run0: seq<Step>, ghost whole: seq<Step>)
      returns (ghost run: seq<Step>)
      requires world.Valid() && todo != [] && todo[0] == held
      requires Run(cfg, s0, run0) == Continue(View(), now, todo)
      requires run0 + Play(cfg, Run(cfg, s0, run0), todo, world, i) == whole
      modifies this, store
      ensures Run(cfg, s0, run) == Continue(View(), now, todo[1..])
      ensures run + Play(cfg, Run(cfg, s0, run), todo[1..], world, i + 1) == whole
    {
      var signed := held.row.signed;
      ghost var asked := SigningOf(held, world, i);
      if held.row.status.Held? {
        signed := RequestOne(held, now, world.meanwhile(2 * i), world.sign(i), todo, s0, run0);
      } else {
        assert run0 + asked == run0;
      }
      ghost var published := if signed.Some? then PublishingOf(world, i) else [];
      PublishesIf(View(), now, todo, signed);
      PlayGoesOn(cfg, s0, run0, todo, world, i, published);
      run := run0 + asked + published;
      if signed.Some? {
        PublishOne(held, signed.value, now, world.meanwhile(2 * i + 1), world.publish(i), todo, s0, run0 + asked);
      } else {
        assert run == run0 + asked;
      }
    }

    /** A submission from its first look at the store to its outcome; other steps may happen while the nodes are asked. */
    method SignOrHold(call: nat, event: UnsignedEvent, meanwhile: seq<Step>, attempts: seq<Attempt>)
      returns (outcome: Outcome, ghost run: seq<Step>)
      requires call !in pending && event.kind in cfg.delays
      requires forall k :: 0 <= k < |meanwhile| ==> IsOutside(meanwhile[k]) && !meanwhile[k].SubmitEnds?
      modifies this, store
      ensures View() == Run(cfg, old(View()), run)
      ensures outcome.StillHeld? ==> outcome.row in store.rows && outcome.row.eventId == EventHash(event)
      ensures run == [] || (run == [SubmitStarts(call, event)] + meanwhile + [SubmitEnds(call, attempts)] && Ends(outcome, attempts))
      ensures UniqueIds(old(store.rows)) ==>
                (forall i :: 0 <= i < |old(store.rows)| && old(store.rows)[i].eventId == EventHash(event) ==>
                   AnswersKnown(old(store.rows)[i], if run == [] then Some(outcome) else None))
      ensures (forall i :: 0 <= i < |old(store.rows)| ==> old(store.rows)[i].eventId != EventHash(event)) ==> run != []
    {
      ghost var s0 := View();
      var known := AnswerFromStore(store.rows, EventHash(event));
      if UniqueIds(store.rows) {
        forall i: nat ensures i < |store.rows| && store.rows[i].eventId == EventHash(event) ==> AnswersKnown(store.rows[i], known) {
          KnownEventIsAnswered(store.rows, EventHash(event), i);
        }
      }
      if known.Some? {
        return known.value, [];
      }
      var now := clock;
      pending := pending[call := Submission(event, now)];
      run := [SubmitStarts(call, event)];
      RunOneMore(cfg, s0, [], SubmitStarts(call, event));
      AwaitNodes(call, meanwhile, s0, run);
      run := run + meanwhile;
      RunOneMore(cfg, s0, run, SubmitEnds(call, attempts));
      outcome := FinishSubmission(event, now, attempts);
      pending := pending - {call};
      run := run + [SubmitEnds(call, attempts)];
    }

    method AwaitNodes(call: nat, steps: seq<Step>, ghost s0: State, ghost run0: seq<Step>)
      requires forall k :: 0 <= k < |steps| ==> IsOutside(steps[k]) && !steps[k].SubmitEnds?
      requires Run(cfg, s0, run0) == View() && call in pending
      modifies this, store
      ensures Run(cfg, s0, run0 + steps) == View() && call in pending && pending[call] == old(pending[call])
    {
      ghost var run := run0;
      for i := 0 to |steps|
        invariant run == run0 + steps[..i] && Run(cfg, s0, run) == View()
        invariant call in pending && pending[call] == old(pending[call])
      {
        RunOneMore(cfg, s0, run, steps[i]);
        StaysPending(cfg, View(), steps[i], call);
        OutsideStep(steps[i]);
        run := run + [steps[i]];
        OneMore(run0, steps, i);
      }
      assert steps[..|steps|] == steps;
    }
  }
}
