/**
 * The life of held events (src/cinderella/held-events.ts) as a state machine.
 * processDueHeld and signOrHold are cut at every await; between two of their
 * steps anything else may happen: other submissions, veto notices, cancels,
 * the passing of time, a restart of the process.
 */
module HeldLifecycle {
  import opened Basics
  import opened HeldConfig
  import opened HeldStore
  import opened HeldPlan

  // ------------------------------------------------------------------ signOrHold

  /** How one share node's session ended. */
  datatype Attempt = Fulfilled(event: NostrEvent) | Rejected(refusals: seq<PeerRefusal>)

  datatype Outcome = Ok(event: NostrEvent) | StillHeld(row: Row) | RefusedForGood

  /** The answer to a submission of a known event, where the nodes are left out of it. */
  function AnswerFromStore(t: Table, eventId: EventId): Option<Outcome> {
    match Find(t, eventId)
    case None => None
    case Some(i) =>
      if t[i].status.Published? && t[i].signed.Some? then Some(Ok(t[i].signed.value))
      else if t[i].status.Failed? || t[i].status.Cancelled? then None
      else Some(StillHeld(t[i]))
  }

  /** The statuses a known event may have, as the answer to submitting it again sees them. */
  ghost predicate AnswersKnown(r: Row, answer: Option<Outcome>) {
    && (r.status == Published && r.signed.Some? ==> answer == Some(Ok(r.signed.value)))
    && (r.status == Published && r.signed.None? ==> answer == Some(StillHeld(r)))
    && (r.status == Status.Held || r.status == Signed || r.status == Superseded || r.status == Status.Vetoed
        ==> answer == Some(StillHeld(r)))
    && (r.status == Failed || r.status == Cancelled ==> answer == None)
  }

  /**
   * A submitted event the store knows: a published one is answered with its
   * signature; a held, signed, superseded or vetoed one as it stands; about a
   * failed or cancelled one, as about an unknown one, the nodes are asked.
   */
  lemma KnownEventIsAnswered(t: Table, eventId: EventId, i: RowId)
    requires UniqueIds(t)
    ensures i < |t| && t[i].eventId == eventId ==> AnswersKnown(t[i], AnswerFromStore(t, eventId))
    ensures (forall k :: 0 <= k < |t| ==> t[k].eventId != eventId) ==> AnswerFromStore(t, eventId).None?
  {
    if i < |t| && t[i].eventId == eventId {
      var k := Find(t, eventId).value;
      assert k == i by { assert t[Min(i, k)].eventId == t[Max(i, k)].eventId; }
    }
  }

  /** The first node that signed decides. */
  function FirstSigned(attempts: seq<Attempt>): (r: Option<NostrEvent>)
    ensures r.None? <==> forall a :: a in attempts ==> a.Rejected?
    ensures r.Some? ==> Fulfilled(r.value) in attempts
  {
    if attempts == [] then None
    else
      assert attempts == [attempts[0]] + attempts[1..] && attempts[0] in attempts;
      if attempts[0].Fulfilled? then Some(attempts[0].event) else FirstSigned(attempts[1..])
  }

  function AllRefusals(attempts: seq<Attempt>): (r: seq<PeerRefusal>)
    ensures forall x :: x in r <==> exists a :: a in attempts && a.Rejected? && x in a.refusals
  {
    if attempts == [] then []
    else
      assert attempts == [attempts[0]] + attempts[1..];
      (if attempts[0].Rejected? then attempts[0].refusals else []) + AllRefusals(attempts[1..])
  }

  ghost predicate FirstFulfilled(attempts: seq<Attempt>, event: NostrEvent) {
    exists k :: 0 <= k < |attempts| && attempts[k] == Fulfilled(event) && forall j :: 0 <= j < k ==> attempts[j].Rejected?
  }

  lemma {:induction false} FirstSignedIsFirst(attempts: seq<Attempt>)
    ensures FirstSigned(attempts).Some? ==> FirstFulfilled(attempts, FirstSigned(attempts).value)
  {
    if attempts != [] && attempts[0].Rejected? && FirstSigned(attempts).Some? {
      var tail, event := attempts[1..], FirstSigned(attempts).value;
      FirstSignedIsFirst(tail);
      var k :| 0 <= k < |tail| && tail[k] == Fulfilled(event) && forall j :: 0 <= j < k ==> tail[j].Rejected?;
      assert attempts[k + 1] == Fulfilled(event);
      forall j | 0 <= j < k + 1 ensures attempts[j].Rejected? {
        assert j > 0 ==> attempts[j] == tail[j - 1];
      }
    } else if attempts != [] && attempts[0].Fulfilled? {
      assert attempts[0] == Fulfilled(attempts[0].event);
    }
  }

  /** The refusals stand in the order of the sessions. */
  lemma {:induction false} RefusalsInOrder(a: seq<Attempt>, b: seq<Attempt>, refusals: seq<PeerRefusal>)
    ensures AllRefusals(a + [Rejected(refusals)] + b) == AllRefusals(a) + refusals + AllRefusals(b)
  {
    var all := a + [Rejected(refusals)] + b;
    if a == [] {
      assert all[1..] == b;
    } else {
      RefusalsInOrder(a[1..], b, refusals);
      assert all[0] == a[0] && all[1..] == a[1..] + [Rejected(refusals)] + b;
    }
  }

  /** The latest unlock time any node reported, or else the configured delay from now. */
  function FirstUnlock(cfg: Config, kind: int, refusals: seq<PeerRefusal>, now: int): int {
    var reported := ReportedUnlock(refusals);
    if reported.Some? then reported.value else now + cfg.DelayOr24h(kind)
  }

  function HoldOp(cfg: Config, event: UnsignedEvent, unlockAt: int): StoreOp {
    OpHold(event, EventHash(event), unlockAt, unlockAt + cfg.margin, IsReplaceable(event.kind))
  }

  /** The statements that hold an event no node signed. */
  function HoldOps(cfg: Config, event: UnsignedEvent, now: int, refusals: seq<PeerRefusal>): seq<StoreOp> {
    var hold, vetoed := HoldOp(cfg, event, FirstUnlock(cfg, event.kind, refusals, now)), FirstVetoed(refusals);
    if vetoed.Some? then [hold, OpVeto(EventHash(event), vetoed.value.peer)] else [hold]
  }

  /** The statements signOrHold runs once every node has answered or timed out. */
  function SubmitOps(cfg: Config, event: UnsignedEvent, now: int, attempts: seq<Attempt>): seq<StoreOp> {
    if FirstSigned(attempts).Some? || AllDenied(AllRefusals(attempts)) then []
    else HoldOps(cfg, event, now, AllRefusals(attempts))
  }

  // ------------------------------------------------------------------- the machine

  datatype Phase = AwaitSign | AwaitPublish(signed: NostrEvent)

  /** todo[0] is the row the pass is waiting on; the rest are still to come. */
  datatype Pass = Idle | Busy(now: int, todo: seq<Snap>, phase: Phase)

  datatype Call = SignCall(id: RowId, at: int) | PublishCall(id: RowId, event: NostrEvent)

  datatype Submission = Submission(event: UnsignedEvent, now: int)

  datatype State = State(clock: int, rows: Table, pass: Pass, pending: map<nat, Submission>, calls: seq<Call>)

  datatype Step =
    | Tick(to: int)
    | Restart
    | PassStarts(pubkey: string)
    | SignAnswered(signed: NostrEvent)
    | SignRefused(refusals: seq<PeerRefusal>)
    | PublishAnswered(results: map<string, string>)
    | PublishFailed
    | SubmitStarts(call: nat, event: UnsignedEvent)
    | SubmitEnds(call: nat, attempts: seq<Attempt>)
    | Notice(eventId: EventId, reporter: string)
    | CancelRequest(id: RowId, pubkey: string)

  function Init(clock: int): State {
    State(clock, [], Idle, map[], [])
  }

  predicate AwaitingSign(s: State) {
    s.pass.Busy? && s.pass.todo != [] && s.pass.phase.AwaitSign?
  }

  predicate AwaitingPublish(s: State) {
    s.pass.Busy? && s.pass.todo != [] && s.pass.phase.AwaitPublish?
  }

  predicate VetoedNow(t: Table, id: RowId) {
    id < |t| && t[id].status.Vetoed?
  }

  predicate Accepted(results: map<string, string>) {
    "ok" in results.Values
  }

  /**
   * The re-request of snapshot h failed: what is written, from what the nodes said.
   * A veto that names no peer is recorded like any failed attempt.
   */
  function FailureOps(cfg: Config, h: Snap, refusals: seq<PeerRefusal>, now: int): seq<StoreOp> {
    var plan := PlanRetry(cfg, h.row, refusals, now);
    if NamesVeto(plan) then [OpVeto(h.row.eventId, plan.vetoedBy.value)]
    else [OpUpdate(h.id, RetryFields(h.row, plan))]
  }

  function SignedFields(h: Snap, signed: NostrEvent): Fields {
    NoFields.(status := Some(Signed), signed := Some(Some(signed)), attempts := Some(h.row.attempts + 1))
  }

  /** What is written after publishing: no results when publishing itself failed. */
  function PublishFields(results: Option<map<string, string>>, now: int): Fields {
    if results.Some? && Accepted(results.value) then NoFields.(status := Some(Published), publishResults := results)
    else NoFields.(publishResults := results, nextAttemptAt := Some(now + PUBLISH_RETRY_MS))
  }

  /** The statements one step runs. */
  function Ops(cfg: Config, s: State, step: Step): seq<StoreOp> {
    match step
    case SignAnswered(signed) =>
      if !AwaitingSign(s) then []
      else
        var h := s.pass.todo[0];
        if signed.id != h.row.eventId then FailureOps(cfg, h, [], s.pass.now)
        else if VetoedNow(s.rows, h.id) then []
        else [OpUpdate(h.id, SignedFields(h, signed))]
    case SignRefused(refusals) =>
      if AwaitingSign(s) then FailureOps(cfg, s.pass.todo[0], refusals, s.pass.now) else []
    case PublishAnswered(results) =>
      if AwaitingPublish(s) then [OpUpdate(s.pass.todo[0].id, PublishFields(Some(results), s.pass.now))] else []
    case PublishFailed =>
      if AwaitingPublish(s) then [OpUpdate(s.pass.todo[0].id, PublishFields(None, s.pass.now))] else []
    case SubmitEnds(call, attempts) =>
      if call in s.pending then SubmitOps(cfg, s.pending[call].event, s.pending[call].now, attempts) else []
    case Notice(eventId, reporter) => [OpVeto(eventId, reporter)]
    case CancelRequest(id, pubkey) => [OpCancel(id, pubkey)]
    case _ => []
  }

  /** Go on with the next due row: ask for its signature, publish it, or skip it. */
  function Continue(s: State, now: int, todo: seq<Snap>): State
    decreases |todo|
  {
    if todo == [] then s.(pass := Idle)
    else
      var h := todo[0];
      if h.row.status.Held? then s.(pass := Busy(now, todo, AwaitSign), calls := s.calls + [SignCall(h.id, s.clock)])
      else if h.row.signed.Some? then Publish(s, now, todo, h.row.signed.value)
      else Continue(s, now, todo[1..])
  }

  function Publish(s: State, now: int, todo: seq<Snap>, signed: NostrEvent): State
    requires todo != []
  {
    s.(pass := Busy(now, todo, AwaitPublish(signed)), calls := s.calls + [PublishCall(todo[0].id, signed)])
  }

  /** One step; a step that cannot happen in s changes nothing. */
  function Next(cfg: Config, s: State, step: Step): State {
    var u := s.(rows := ApplyAll(s.rows, Ops(cfg, s, step)));
    match step
    case Tick(to) => if s.clock <= to then s.(clock := to) else s
    case Restart => s.(pass := Idle, pending := map[])
    case PassStarts(pubkey) => if s.pass.Busy? then s else Continue(s, s.clock, DueHeld(s.rows, pubkey, s.clock))
    case SignAnswered(signed) =>
      if !AwaitingSign(s) then s
      else if signed.id == s.pass.todo[0].row.eventId && !VetoedNow(s.rows, s.pass.todo[0].id) then
        Publish(u, s.pass.now, s.pass.todo, signed)
      else Continue(u, s.pass.now, s.pass.todo[1..])
    case SignRefused(_) => if AwaitingSign(s) then Continue(u, s.pass.now, s.pass.todo[1..]) else s
    case PublishAnswered(_) => if AwaitingPublish(s) then Continue(u, s.pass.now, s.pass.todo[1..]) else s
    case PublishFailed => if AwaitingPublish(s) then Continue(u, s.pass.now, s.pass.todo[1..]) else s
    case SubmitStarts(call, event) =>
      if call !in s.pending && event.kind in cfg.delays && AnswerFromStore(s.rows, EventHash(event)).None?
      then s.(pending := s.pending[call := Submission(event, s.clock)]) else s
    case SubmitEnds(call, _) => u.(pending := u.pending - {call})
    case Notice(_, _) => u
    case CancelRequest(_, _) => u
  }

  function Run(cfg: Config, s: State, steps: seq<Step>): State {
    if steps == [] then s else Next(cfg, Run(cfg, s, steps[..|steps| - 1]), Last(steps))
  }

  /** What signing returns names the event it was asked for. */
  ghost predicate SealedAnswers(steps: seq<Step>) {
    forall k :: 0 <= k < |steps| && steps[k].SignAnswered? ==> Sealed(steps[k].signed)
  }

  lemma RunOneMore(cfg: Config, s: State, run: seq<Step>, step: Step)
    ensures Run(cfg, s, run + [step]) == Next(cfg, Run(cfg, s, run), step)
  {
    assert (run + [step])[..|run|] == run;
  }

  /** The calls u has made since s. */
  function NewCalls(s: State, u: State): seq<Call> {
    if |s.calls| <= |u.calls| then u.calls[|s.calls|..] else []
  }

  // -------------------------------------------------------------------- invariant

  /** The columns of a row fit its status. */
  predicate RowOk(r: Row) {
    && r.eventId == EventHash(r.event) && r.pubkey == r.event.pubkey && r.kind == r.event.kind
    && (r.signed.Some? ==> r.signed.value.id == r.eventId)
    && (r.status.Signed? || r.status.Published? ==> r.signed.Some?)
    && (r.status.Held? || r.status.Vetoed? || r.status.Failed? || r.status.Cancelled? ==> r.signed.None?)
    && (r.status.Published? ==> r.publishResults.Some? && Accepted(r.publishResults.value))
  }

  /** A held row is not due before its unlock time plus margin. */
  predicate NotEarly(cfg: Config, r: Row, clock: int) {
    r.status.Held? ==> r.unlockAt + cfg.margin <= Max(r.nextAttemptAt, clock)
  }

  /** What a row's snapshot still says about the live row until the pass has dealt with it. */
  predicate SnapOk(cfg: Config, live: Row, snap: Row, now: int) {
    && SameEvent(live, snap) && RowOk(snap) && snap.Live() && snap.nextAttemptAt <= now
    && (snap.status.Held? ==>
          && (live.status.Held? || live.status.Cancelled? || live.status.Superseded? || live.status.Vetoed?)
          && live.signed.None? && live.unlockAt == snap.unlockAt && live.nextAttemptAt == snap.nextAttemptAt
          && snap.unlockAt + cfg.margin <= now)
    && (snap.status.Signed? ==> InPublication(live) && live.signed == snap.signed)
  }

  predicate InPublication(live: Row) {
    (live.status.Signed? || live.status.Superseded?) && live.signed.Some?
  }

  ghost predicate TodoOk(cfg: Config, t: Table, todo: seq<Snap>, now: int) {
    && DistinctIds(todo)
    && forall k :: 0 <= k < |todo| ==> todo[k].id < |t| && SnapOk(cfg, t[todo[k].id], todo[k].row, now)
  }

  ghost predicate PassOk(cfg: Config, s: State) {
    match s.pass
    case Idle => true
    case Busy(now, todo, phase) =>
      && now <= s.clock && todo != [] && DistinctIds(todo) && TodoOk(cfg, s.rows, todo[1..], now)
      && todo[0].id < |s.rows|
      && var live := s.rows[todo[0].id];
         match phase
         case AwaitSign => todo[0].row.status.Held? && SnapOk(cfg, live, todo[0].row, now)
         case AwaitPublish(signed) => SameEvent(live, todo[0].row) && InPublication(live) && live.signed == Some(signed)
  }

  ghost predicate RowsOk(cfg: Config, t: Table, clock: int) {
    forall i :: 0 <= i < |t| ==> RowOk(t[i]) && NotEarly(cfg, t[i], clock)
  }

  ghost predicate Inv(cfg: Config, s: State) {
    RowsOk(cfg, s.rows, s.clock) && UniqueIds(s.rows) && PassOk(cfg, s)
  }

  // ------------------------------------------------- what happens outside the pass

  /** How submissions, veto notices and cancels may change a row. */
  predicate OutsideRow(a: Row, b: Row) {
    && b.(status := a.status, vetoedBy := a.vetoedBy) == a
    && (b.status == a.status || (a.Live() && b.status.Superseded?) || (a.status.Held? && b.status.Vetoed?)
        || ((a.status.Held? || a.status.Vetoed?) && b.status.Cancelled?))
  }

  ghost predicate Outside(t: Table, u: Table) {
    |t| <= |u| && forall i :: 0 <= i < |t| ==> OutsideRow(t[i], u[i])
  }

  /** A row added to t starts with its first attempt due a margin after the unlock. */
  ghost predicate NewRowsUntried(cfg: Config, t: Table, u: Table) {
    forall i :: |t| <= i < |u| ==> u[i].nextAttemptAt == u[i].unlockAt + cfg.margin
  }

  /** The statements the rest of the gateway runs: never an update of the columns the scheduler owns. */
  predicate OutsideOp(cfg: Config, op: StoreOp) {
    && !op.OpUpdate?
    && (op.OpHold? ==> op.eventId == EventHash(op.event) && op.nextAttemptAt == op.unlockAt + cfg.margin
                       && op.isReplaceable == IsReplaceable(op.event.kind))
  }

  lemma HoldKeepsRows(cfg: Config, t: Table, event: UnsignedEvent, unlockAt: int, clock: int)
    requires RowsOk(cfg, t, clock)
    ensures var u := Apply(t, HoldOp(cfg, event, unlockAt)); RowsOk(cfg, u, clock) && Outside(t, u) && NewRowsUntried(cfg, t, u)
  {
    var u := Apply(t, HoldOp(cfg, event, unlockAt));
    forall i | 0 <= i < |t| ensures OutsideRow(t[i], u[i]) && RowOk(u[i]) && NotEarly(cfg, u[i], clock) {
      assert u[i] == t[i] || (t[i].Live() && u[i] == t[i].(status := Superseded));
    }
  }

  lemma OutsideOpKeepsRows(cfg: Config, t: Table, op: StoreOp, clock: int)
    requires RowsOk(cfg, t, clock) && OutsideOp(cfg, op)
    ensures RowsOk(cfg, Apply(t, op), clock) && Outside(t, Apply(t, op)) && NewRowsUntried(cfg, t, Apply(t, op))
  {
    if op.OpHold? {
      HoldKeepsRows(cfg, t, op.event, op.unlockAt, clock);
      assert op == HoldOp(cfg, op.event, op.unlockAt);
    }
  }

  lemma OutsideTwice(cfg: Config, t: Table, u: Table, v: Table)
    requires Outside(t, u) && Outside(u, v) && NewRowsUntried(cfg, t, u) && NewRowsUntried(cfg, u, v)
    ensures Outside(t, v) && NewRowsUntried(cfg, t, v)
  {
    forall i | 0 <= i < |t| ensures OutsideRow(t[i], v[i]) {
      assert OutsideRow(t[i], u[i]) && OutsideRow(u[i], v[i]);
    }
    forall i | |t| <= i < |v| ensures v[i].nextAttemptAt == v[i].unlockAt + cfg.margin {
      assert i < |u| ==> OutsideRow(u[i], v[i]);
    }
  }

  lemma {:induction false} OutsideOpsKeepRows(cfg: Config, t: Table, ops: seq<StoreOp>, clock: int)
    requires RowsOk(cfg, t, clock) && forall op :: op in ops ==> OutsideOp(cfg, op)
    ensures RowsOk(cfg, ApplyAll(t, ops), clock) && Outside(t, ApplyAll(t, ops))
    ensures NewRowsUntried(cfg, t, ApplyAll(t, ops))
  {
    if ops != [] {
      var front := ops[..|ops| - 1];
      assert forall op :: op in front ==> op in ops;
      OutsideOpsKeepRows(cfg, t, front, clock);
      assert Last(ops) in ops;
      OutsideOpKeepsRows(cfg, ApplyAll(t, front), Last(ops), clock);
      OutsideTwice(cfg, t, ApplyAll(t, front), ApplyAll(t, ops));
    }
  }

  lemma OutsideKeepsTodo(cfg: Config, t: Table, u: Table, todo: seq<Snap>, now: int)
    requires TodoOk(cfg, t, todo, now) && Outside(t, u)
    ensures TodoOk(cfg, u, todo, now)
  {
  }

  /** Every step other than the pass's own. */
  predicate IsOutside(step: Step) {
    step.Tick? || step.SubmitStarts? || step.SubmitEnds? || step.Notice? || step.CancelRequest?
  }

  lemma OutsideStep(cfg: Config, s: State, step: Step)
    requires cfg.Valid() && Inv(cfg, s) && IsOutside(step)
    ensures Inv(cfg, Next(cfg, s, step))
    ensures Next(cfg, s, step).pass == s.pass && Next(cfg, s, step).calls == s.calls
    ensures Outside(s.rows, Next(cfg, s, step).rows) && NewRowsUntried(cfg, s.rows, Next(cfg, s, step).rows)
  {
    var ops := Ops(cfg, s, step);
    OutsideOpsKeepRows(cfg, s.rows, ops, s.clock);
    OneRowPerEvent(s.rows, ops);
    if s.pass.Busy? {
      OutsideKeepsTodo(cfg, s.rows, ApplyAll(s.rows, ops), s.pass.todo[1..], s.pass.now);
    }
  }

  // ------------------------------------------------------------- the pass's own steps

  /** Continue only picks the next row: the table and the clock stay. */
  lemma ContinueKeepsInv(cfg: Config, s: State, now: int, todo: seq<Snap>)
    requires RowsOk(cfg, s.rows, s.clock) && UniqueIds(s.rows)
    requires TodoOk(cfg, s.rows, todo, now) && now <= s.clock
    ensures Inv(cfg, Continue(s, now, todo))
    ensures Continue(s, now, todo).rows == s.rows && Continue(s, now, todo).clock == s.clock
    ensures s.calls <= Continue(s, now, todo).calls
    ensures forall c :: c in NewCalls(s, Continue(s, now, todo)) ==> CallOk(cfg, s.rows, s.clock, c)
  {
    assert todo != [] ==> todo[0].row.status.Held? || todo[0].row.signed.Some?;
  }

  /**
   * What holds of the table at the moment a call is made: a re-request is not
   * early, and what is published is the signature of a stored row that was
   * signed and is not vetoed.
   */
  ghost predicate CallOk(cfg: Config, t: Table, clock: int, c: Call) {
    && c.id < |t|
    && match c
       case SignCall(id, at) => at == clock && t[id].unlockAt + cfg.margin <= at && t[id].signed.None?
       case PublishCall(id, event) => event.id == t[id].eventId && InPublication(t[id]) && t[id].signed == Some(event)
  }

  /** The one statement of a pass's step touches only the row at the head; the others keep matching their snapshots. */
  lemma HeadUpdateKeepsRest(cfg: Config, s: State, f: Fields)
    requires Inv(cfg, s) && s.pass.Busy?
    ensures var u := Update(s.rows, s.pass.todo[0].id, f);
            TodoOk(cfg, u, s.pass.todo[1..], s.pass.now) && Grows(s.rows, u) && UniqueIds(u)
  {
    var u := Update(s.rows, s.pass.todo[0].id, f);
    var rest := s.pass.todo[1..];
    forall k | 0 <= k < |rest| ensures rest[k].id != s.pass.todo[0].id && u[rest[k].id] == s.rows[rest[k].id] {
      assert rest[k] == s.pass.todo[k + 1];
    }
  }

  lemma ApplyOne(t: Table, op: StoreOp)
    ensures ApplyAll(t, [op]) == Apply(t, op)
  {
    assert [op][..0] == [];
  }

  lemma ApplyTwo(t: Table, a: StoreOp, b: StoreOp)
    ensures ApplyAll(t, [a, b]) == Apply(Apply(t, a), b)
  {
    assert [a, b][..1] == [a];
    ApplyOne(t, a);
  }

  lemma FailureKeepsInv(cfg: Config, s: State, refusals: seq<PeerRefusal>)
    requires cfg.Valid() && Inv(cfg, s) && AwaitingSign(s)
    ensures var u := ApplyAll(s.rows, FailureOps(cfg, s.pass.todo[0], refusals, s.pass.now));
            RowsOk(cfg, u, s.clock) && UniqueIds(u) && TodoOk(cfg, u, s.pass.todo[1..], s.pass.now)
  {
    var h := s.pass.todo[0];
    var plan := PlanRetry(cfg, h.row, refusals, s.pass.now);
    var op := FailureOps(cfg, h, refusals, s.pass.now)[0];
    ApplyOne(s.rows, op);
    PlanKeepsUnlock(cfg, h.row, refusals, s.pass.now);
    if NamesVeto(plan) {
      OutsideOpsKeepRows(cfg, s.rows, [op], s.clock);
      OneRowPerEvent(s.rows, [op]);
      OutsideKeepsTodo(cfg, s.rows, Apply(s.rows, op), s.pass.todo[1..], s.pass.now);
    } else {
      HeadUpdateKeepsRest(cfg, s, RetryFields(h.row, plan));
    }
  }

  lemma SignatureKeepsInv(cfg: Config, s: State, signed: NostrEvent)
    requires cfg.Valid() && Inv(cfg, s) && AwaitingSign(s)
    requires signed.id == s.pass.todo[0].row.eventId && !VetoedNow(s.rows, s.pass.todo[0].id)
    ensures var u := Next(cfg, s, SignAnswered(signed));
            Inv(cfg, u) && s.calls <= u.calls && forall c :: c in NewCalls(s, u) ==> CallOk(cfg, u.rows, s.clock, c)
  {
    var h := s.pass.todo[0];
    ApplyOne(s.rows, OpUpdate(h.id, SignedFields(h, signed)));
    HeadUpdateKeepsRest(cfg, s, SignedFields(h, signed));
  }

  lemma AnswerKeepsInv(cfg: Config, s: State, signed: NostrEvent)
    requires cfg.Valid() && Inv(cfg, s) && AwaitingSign(s)
    ensures var u := Next(cfg, s, SignAnswered(signed));
            Inv(cfg, u) && s.calls <= u.calls && forall c :: c in NewCalls(s, u) ==> CallOk(cfg, u.rows, s.clock, c)
  {
    var h := s.pass.todo[0];
    if signed.id == h.row.eventId && !VetoedNow(s.rows, h.id) {
      SignatureKeepsInv(cfg, s, signed);
    } else {
      if signed.id != h.row.eventId {
        FailureKeepsInv(cfg, s, []);
      }
      ContinueKeepsInv(cfg, s.(rows := ApplyAll(s.rows, Ops(cfg, s, SignAnswered(signed)))), s.pass.now, s.pass.todo[1..]);
    }
  }

  lemma DueIsOk(cfg: Config, s: State, pubkey: string)
    requires Inv(cfg, s)
    ensures TodoOk(cfg, s.rows, DueHeld(s.rows, pubkey, s.clock), s.clock)
  {
    var due := DueHeld(s.rows, pubkey, s.clock);
    forall k | 0 <= k < |due| ensures due[k].id < |s.rows| && SnapOk(cfg, s.rows[due[k].id], due[k].row, s.clock) {
      assert due[k] in due;
    }
  }

  lemma PublishKeepsRest(cfg: Config, s: State, step: Step)
    requires Inv(cfg, s) && AwaitingPublish(s) && (step.PublishAnswered? || step.PublishFailed?)
    ensures var u := ApplyAll(s.rows, Ops(cfg, s, step));
            RowsOk(cfg, u, s.clock) && UniqueIds(u) && TodoOk(cfg, u, s.pass.todo[1..], s.pass.now)
  {
    var op := Ops(cfg, s, step)[0];
    ApplyOne(s.rows, op);
    HeadUpdateKeepsRest(cfg, s, op.fields);
  }

  lemma PassStep(cfg: Config, s: State, step: Step)
    requires cfg.Valid() && Inv(cfg, s) && !IsOutside(step)
    ensures Inv(cfg, Next(cfg, s, step))
    ensures s.calls <= Next(cfg, s, step).calls
    ensures forall c :: c in NewCalls(s, Next(cfg, s, step)) ==> CallOk(cfg, Next(cfg, s, step).rows, s.clock, c)
  {
    var u := s.(rows := ApplyAll(s.rows, Ops(cfg, s, step)));
    if step.PassStarts? {
      DueIsOk(cfg, s, step.pubkey);
      if s.pass.Idle? {
        ContinueKeepsInv(cfg, s, s.clock, DueHeld(s.rows, step.pubkey, s.clock));
      }
    } else if step.SignAnswered? && AwaitingSign(s) {
      AnswerKeepsInv(cfg, s, step.signed);
    } else if step.SignRefused? && AwaitingSign(s) {
      FailureKeepsInv(cfg, s, step.refusals);
      ContinueKeepsInv(cfg, u, s.pass.now, s.pass.todo[1..]);
    } else if (step.PublishAnswered? || step.PublishFailed?) && AwaitingPublish(s) {
      PublishKeepsRest(cfg, s, step);
      ContinueKeepsInv(cfg, u, s.pass.now, s.pass.todo[1..]);
    }
  }

  /** Every reachable state satisfies the invariant. */
  lemma {:induction false} RunsKeepInv(cfg: Config, s: State, steps: seq<Step>)
    requires cfg.Valid() && Inv(cfg, s)
    ensures Inv(cfg, Run(cfg, s, steps))
  {
    if steps != [] {
      RunsKeepInv(cfg, s, steps[..|steps| - 1]);
      var t, step := Run(cfg, s, steps[..|steps| - 1]), Last(steps);
      if IsOutside(step) { OutsideStep(cfg, t, step); } else { PassStep(cfg, t, step); }
    }
  }
}
