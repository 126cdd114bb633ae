/** What holds of held events over every run of the machine in HeldLifecycle. */
module HeldSafety {
  import opened Basics
  import opened HeldConfig
  import opened HeldStore
  import opened HeldPlan
  import opened HeldLifecycle

  /** The state after `steps` on a fresh table. */
  function Reached(cfg: Config, clock: int, steps: seq<Step>): State {
    Run(cfg, Init(clock), steps)
  }

  lemma {:induction false} RunSplits(cfg: Config, s: State, a: seq<Step>, b: seq<Step>)
    ensures Run(cfg, s, a + b) == Run(cfg, Run(cfg, s, a), b)
  {
    if b == [] {
      assert a + b == a;
    } else {
      assert (a + b)[..|a + b| - 1] == a + b[..|b| - 1];
      RunSplits(cfg, s, a, b[..|b| - 1]);
    }
  }

  lemma AnyStep(cfg: Config, s: State, step: Step)
    requires cfg.Valid() && Inv(cfg, s)
    ensures Inv(cfg, Next(cfg, s, step)) && s.calls <= Next(cfg, s, step).calls
    ensures forall c :: c in NewCalls(s, Next(cfg, s, step)) ==> CallOk(cfg, Next(cfg, s, step).rows, Next(cfg, s, step).clock, c)
  {
    if IsOutside(step) { OutsideStep(cfg, s, step); } else { PassStep(cfg, s, step); }
  }

  // -------------------------------------------------------------- what calls carry

  /**
   * Never early: whenever a step of any run makes a re-request, the row's unlock
   * time plus the margin has passed. It holds whatever retry_at a node reports.
   */
  lemma NeverEarly(cfg: Config, clock: int, steps: seq<Step>, step: Step, c: Call)
    requires cfg.Valid()
    requires var s := Reached(cfg, clock, steps); c.SignCall? && c in NewCalls(s, Next(cfg, s, step))
    ensures var u := Reached(cfg, clock, steps + [step]);
            c.id < |u.rows| && u.rows[c.id].unlockAt + cfg.margin <= c.at == u.clock
  {
    RunsKeepInv(cfg, Init(clock), steps);
    AnyStep(cfg, Reached(cfg, clock, steps), step);
    assert (steps + [step])[..|steps|] == steps;
  }

  /**
   * Every publish call passes the signature stored with a row that carries that
   * event id and is neither held nor vetoed; some re-request of the run returned it.
   */
  lemma PublishesWhatWasHeld(cfg: Config, clock: int, steps: seq<Step>, step: Step, c: Call)
    requires cfg.Valid()
    requires var s := Reached(cfg, clock, steps); c.PublishCall? && c in NewCalls(s, Next(cfg, s, step))
    ensures var u := Reached(cfg, clock, steps + [step]);
            && c.id < |u.rows| && u.rows[c.id].signed == Some(c.event) && c.event.id == u.rows[c.id].eventId
            && (u.rows[c.id].status.Signed? || u.rows[c.id].status.Superseded?)
            && SignAnswered(c.event) in steps + [step]
  {
    RunsKeepInv(cfg, Init(clock), steps);
    AnyStep(cfg, Reached(cfg, clock, steps), step);
    assert (steps + [step])[..|steps|] == steps;
    SignedCameFromAnswers(cfg, clock, steps + [step], c.id);
  }

  /** Every answer names its event, as signing ensures; then what is published is the very event that was held. */
  lemma PublishesTheHeldEvent(cfg: Config, clock: int, steps: seq<Step>, step: Step, c: Call)
    requires cfg.Valid() && SealedAnswers(steps + [step])
    requires var s := Reached(cfg, clock, steps); c.PublishCall? && c in NewCalls(s, Next(cfg, s, step))
    ensures var u := Reached(cfg, clock, steps + [step]); c.id < |u.rows| && c.event.event == u.rows[c.id].event
  {
    PublishesWhatWasHeld(cfg, clock, steps, step, c);
    RunsKeepInv(cfg, Init(clock), steps + [step]);
  }

  lemma {:induction false} NoUpdateKeepsSigned(t: Table, ops: seq<StoreOp>, id: RowId)
    requires forall op :: op in ops ==> !op.OpUpdate?
    requires id < |ApplyAll(t, ops)|
    ensures ApplyAll(t, ops)[id].signed == if id < |t| then t[id].signed else None
  {
    if ops != [] {
      var front := ops[..|ops| - 1];
      assert forall op :: op in front ==> op in ops;
      assert Last(ops) in ops;
      RunsKeepEvents(t, front);
      if id < |ApplyAll(t, front)| {
        NoUpdateKeepsSigned(t, front, id);
      }
    }
  }

  /** A step leaves a row's signature as it was, or is the answer that brought it. */
  lemma SignedStep(cfg: Config, s: State, step: Step, id: RowId)
    requires Inv(cfg, s) && id < |Next(cfg, s, step).rows|
    ensures var now := Next(cfg, s, step).rows[id].signed;
            now == (if id < |s.rows| then s.rows[id].signed else None) || (now.Some? && step == SignAnswered(now.value))
  {
    NextRows(cfg, s, step);
    var ops := Ops(cfg, s, step);
    if forall op :: op in ops ==> !op.OpUpdate? {
      NoUpdateKeepsSigned(s.rows, ops, id);
    } else {
      OpsAreTheirOwn(cfg, s, step);
      assert ops == [ops[0]];
      ApplyOne(s.rows, ops[0]);
    }
  }

  lemma {:induction false} SignedCameFromAnswers(cfg: Config, clock: int, steps: seq<Step>, id: RowId)
    requires cfg.Valid() && id < |Reached(cfg, clock, steps).rows|
    ensures var signed := Reached(cfg, clock, steps).rows[id].signed; signed.Some? ==> SignAnswered(signed.value) in steps
  {
    if steps != [] {
      var front := steps[..|steps| - 1];
      var s := Reached(cfg, clock, front);
      assert steps == front + [Last(steps)];
      RunsKeepInv(cfg, Init(clock), front);
      SignedStep(cfg, s, Last(steps), id);
      if id < |s.rows| {
        SignedCameFromAnswers(cfg, clock, front, id);
      }
    }
  }

  /** Signed and published rows carry the signature of their own event id; held, vetoed, failed and cancelled rows carry none. */
  lemma SignaturesFitStatuses(cfg: Config, clock: int, steps: seq<Step>, id: RowId)
    requires cfg.Valid() && id < |Reached(cfg, clock, steps).rows|
    ensures var r := Reached(cfg, clock, steps).rows[id];
            && (r.status.Signed? || r.status.Published? ==> r.signed.Some? && r.signed.value.id == r.eventId)
            && (r.status.Held? || r.status.Vetoed? || r.status.Failed? || r.status.Cancelled? ==> r.signed.None?)
            && (r.status.Published? ==> r.publishResults.Some? && "ok" in r.publishResults.value.Values)
            && r.eventId == EventHash(r.event)
  {
    RunsKeepInv(cfg, Init(clock), steps);
  }

  // ------------------------------------------------------------------- the diagram

  /** Every edge a row's status can take in one step. */
  predicate MayBecome(a: Status, b: Status) {
    a == b || match a
      case Held => !b.Published?
      case Signed => b.Published? || b.Superseded?
      case Superseded => b.Signed? || b.Failed? || b.Published?
      case Cancelled => b.Signed? || b.Failed?
      case Vetoed => b.Cancelled?
      case Published => false
      case Failed => false
  }

  /** Row id across one write of the table. */
  ghost predicate Follows(t: Table, u: Table, id: RowId)
    requires id < |t|
  {
    && id < |u| && SameEvent(t[id], u[id]) && MayBecome(t[id].status, u[id].status) && t[id].unlockAt <= u[id].unlockAt
  }

  lemma FailureFollows(cfg: Config, s: State, refusals: seq<PeerRefusal>, id: RowId)
    requires cfg.Valid() && Inv(cfg, s) && id < |s.rows| && AwaitingSign(s)
    ensures Follows(s.rows, ApplyAll(s.rows, FailureOps(cfg, s.pass.todo[0], refusals, s.pass.now)), id)
  {
    var h := s.pass.todo[0];
    ApplyOne(s.rows, FailureOps(cfg, h, refusals, s.pass.now)[0]);
    PlanKeepsUnlock(cfg, h.row, refusals, s.pass.now);
  }

  lemma SignedFollows(cfg: Config, s: State, signed: NostrEvent, id: RowId)
    requires cfg.Valid() && Inv(cfg, s) && id < |s.rows| && AwaitingSign(s)
    ensures Follows(s.rows, ApplyAll(s.rows, [OpUpdate(s.pass.todo[0].id, SignedFields(s.pass.todo[0], signed))]), id)
  {
    ApplyOne(s.rows, OpUpdate(s.pass.todo[0].id, SignedFields(s.pass.todo[0], signed)));
  }

  lemma PublishFollows(cfg: Config, s: State, results: Option<map<string, string>>, id: RowId)
    requires cfg.Valid() && Inv(cfg, s) && id < |s.rows| && AwaitingPublish(s)
    ensures Follows(s.rows, ApplyAll(s.rows, [OpUpdate(s.pass.todo[0].id, PublishFields(results, s.pass.now))]), id)
  {
    ApplyOne(s.rows, OpUpdate(s.pass.todo[0].id, PublishFields(results, s.pass.now)));
  }

  lemma PassDiagram(cfg: Config, s: State, step: Step, id: RowId)
    requires cfg.Valid() && Inv(cfg, s) && id < |s.rows| && !IsOutside(step)
    ensures Follows(s.rows, ApplyAll(s.rows, Ops(cfg, s, step)), id)
  {
    if step.SignRefused? && AwaitingSign(s) {
      FailureFollows(cfg, s, step.refusals, id);
    } else if step.SignAnswered? && AwaitingSign(s) {
      FailureFollows(cfg, s, [], id);
      SignedFollows(cfg, s, step.signed, id);
    } else if step.PublishAnswered? && AwaitingPublish(s) {
      PublishFollows(cfg, s, Some(step.results), id);
    } else if step.PublishFailed? && AwaitingPublish(s) {
      PublishFollows(cfg, s, None, id);
    }
  }

  /** Statuses move only along MayBecome, and unlock times never decrease. */
  lemma StatusDiagram(cfg: Config, s: State, step: Step, id: RowId)
    requires cfg.Valid() && Inv(cfg, s) && id < |s.rows|
    ensures Follows(s.rows, Next(cfg, s, step).rows, id)
    ensures Next(cfg, s, step).rows == ApplyAll(s.rows, Ops(cfg, s, step))
  {
    if IsOutside(step) {
      OutsideStep(cfg, s, step);
      RunsKeepEvents(s.rows, Ops(cfg, s, step));
    } else {
      NextRows(cfg, s, step);
      PassDiagram(cfg, s, step, id);
    }
  }

  /** Only the statements of a step change the table. */
  lemma NextRows(cfg: Config, s: State, step: Step)
    requires Inv(cfg, s)
    ensures Next(cfg, s, step).rows == ApplyAll(s.rows, Ops(cfg, s, step))
  {
    var u := s.(rows := ApplyAll(s.rows, Ops(cfg, s, step)));
    if step.PassStarts? {
      ContinueRows(s, s.clock, DueHeld(s.rows, step.pubkey, s.clock));
    } else if s.pass.Busy? && !IsOutside(step) {
      ContinueRows(u, s.pass.now, s.pass.todo[1..]);
    }
  }

  lemma {:induction false} ContinueRows(s: State, now: int, todo: seq<Snap>)
    ensures Continue(s, now, todo).rows == s.rows && Continue(s, now, todo).clock == s.clock
    decreases |todo|
  {
    if todo != [] && !todo[0].row.status.Held? && todo[0].row.signed.None? {
      ContinueRows(s, now, todo[1..]);
    }
  }

  /** A step of the pass writes to no other row than the one it works on. */
  lemma PassTouchesHeadOnly(cfg: Config, s: State, step: Step, id: RowId)
    requires Inv(cfg, s) && !IsOutside(step) && id < |s.rows| && (s.pass.Busy? ==> s.pass.todo[0].id != id)
    ensures |ApplyAll(s.rows, Ops(cfg, s, step))| == |s.rows|
    ensures ApplyAll(s.rows, Ops(cfg, s, step))[id] == s.rows[id]
  {
    var ops := Ops(cfg, s, step);
    if ops != [] {
      ApplyOne(s.rows, ops[0]);
      var h := s.pass.todo[0].id;
      assert s.rows[Min(h, id)].eventId != s.rows[Max(h, id)].eventId;
    }
  }

  /** Over a run: unlock times grow, failed and published are final, and no row is ever held again. */
  lemma {:induction false} DiagramOverRuns(cfg: Config, s: State, steps: seq<Step>, id: RowId)
    requires cfg.Valid() && Inv(cfg, s) && id < |s.rows|
    ensures id < |Run(cfg, s, steps).rows|
    ensures var a, b := s.rows[id], Run(cfg, s, steps).rows[id];
            && SameEvent(a, b) && a.unlockAt <= b.unlockAt
            && (a.status.Failed? || a.status.Published? ==> b.status == a.status)
            && (!a.status.Held? ==> !b.status.Held?)
            && (!a.status.Held? && !a.status.Vetoed? ==> !b.status.Vetoed?)
  {
    if steps != [] {
      DiagramOverRuns(cfg, s, steps[..|steps| - 1], id);
      RunsKeepInv(cfg, s, steps[..|steps| - 1]);
      StatusDiagram(cfg, Run(cfg, s, steps[..|steps| - 1]), Last(steps), id);
    }
  }

  // ---------------------------------------------------------------- veto finality

  /** Cancelling a vetoed row is the only step that takes it out of that state, and it always does. */
  lemma VetoLeavesOnlyByCancel(cfg: Config, s: State, step: Step, id: RowId)
    requires cfg.Valid() && Inv(cfg, s) && id < |s.rows| && s.rows[id].status.Vetoed?
    ensures id < |Next(cfg, s, step).rows|
    ensures Next(cfg, s, step).rows[id].status.Vetoed? <==> step != CancelRequest(id, s.rows[id].pubkey)
  {
    StatusDiagram(cfg, s, step, id);
    if step.CancelRequest? {
      ApplyOne(s.rows, OpCancel(step.id, step.pubkey));
    }
    if Next(cfg, s, step).rows[id].status.Cancelled? {
      OpsAreTheirOwn(cfg, s, step);
      OnlyCancelCancels(s.rows, Ops(cfg, s, step), id);
    }
  }

  /** Which statements the steps run: cancels come only from cancel requests, and no update sets held, vetoed or cancelled. */
  lemma OpsAreTheirOwn(cfg: Config, s: State, step: Step)
    ensures forall op :: op in Ops(cfg, s, step) ==>
      && (op.OpCancel? ==> step == CancelRequest(op.id, op.pubkey))
      && Classified(op)
      && (op.OpUpdate? ==> Ops(cfg, s, step) == [op] && (op.fields.status.Some? ==>
            op.fields.status.value.Signed? || op.fields.status.value.Failed? || op.fields.status.value.Published?))
  {
  }

  lemma {:induction false} OnlyCancelCancels(t: Table, ops: seq<StoreOp>, id: RowId)
    requires id < |t| && !t[id].status.Cancelled?
    requires forall op :: op in ops && op.OpUpdate? && op.fields.status.Some? ==> !op.fields.status.value.Cancelled?
    requires id < |ApplyAll(t, ops)| && ApplyAll(t, ops)[id].status.Cancelled?
    ensures OpCancel(id, t[id].pubkey) in ops
  {
    if ops != [] {
      var front := ops[..|ops| - 1];
      assert forall op :: op in front ==> op in ops;
      assert Last(ops) in ops;
      RunsKeepEvents(t, front);
      if ApplyAll(t, front)[id].status.Cancelled? {
        OnlyCancelCancels(t, front, id);
      }
    }
  }

  /** A row that is not held: it never is again, and is vetoed after a step exactly if it was and this is no cancel of it. */
  lemma VetoedStep(cfg: Config, s: State, step: Step, id: RowId)
    requires cfg.Valid() && Inv(cfg, s) && id < |s.rows| && !s.rows[id].status.Held?
    ensures var u := Next(cfg, s, step).rows;
            && id < |u| && SameEvent(s.rows[id], u[id]) && !u[id].status.Held?
            && (u[id].status.Vetoed? <==> s.rows[id].status.Vetoed? && step != CancelRequest(id, s.rows[id].pubkey))
  {
    StatusDiagram(cfg, s, step, id);
    if s.rows[id].status.Vetoed? {
      VetoLeavesOnlyByCancel(cfg, s, step, id);
    }
  }

  lemma {:induction false} VetoedUntilCancelled(cfg: Config, s: State, more: seq<Step>, id: RowId)
    requires cfg.Valid() && Inv(cfg, s) && id < |s.rows| && s.rows[id].status.Vetoed?
    ensures var u := Run(cfg, s, more);
            && id < |u.rows| && SameEvent(s.rows[id], u.rows[id])
            && (u.rows[id].status.Vetoed? <==> CancelRequest(id, s.rows[id].pubkey) !in more)
            && !u.rows[id].status.Held?
  {
    if more != [] {
      var front, step := more[..|more| - 1], Last(more);
      assert more == front + [step];
      VetoedUntilCancelled(cfg, s, front, id);
      RunsKeepInv(cfg, s, front);
      VetoedStep(cfg, Run(cfg, s, front), step, id);
    }
  }

  lemma VetoedNotPublishedByStep(cfg: Config, s: State, step: Step, id: RowId, c: Call)
    requires cfg.Valid() && Inv(cfg, s) && id < |Next(cfg, s, step).rows| && Next(cfg, s, step).rows[id].status.Vetoed?
    requires c in NewCalls(s, Next(cfg, s, step)) && c.PublishCall?
    ensures c.event.id != Next(cfg, s, step).rows[id].eventId
  {
    AnyStep(cfg, s, step);
    var u := Next(cfg, s, step);
    assert CallOk(cfg, u.rows, u.clock, c) && UniqueIds(u.rows);
    assert c.id != id;
  }

  lemma {:induction false} VetoedIsNotPublished(cfg: Config, s: State, more: seq<Step>, id: RowId)
    requires cfg.Valid() && Inv(cfg, s) && id < |s.rows| && s.rows[id].status.Vetoed?
    requires CancelRequest(id, s.rows[id].pubkey) !in more
    ensures s.calls <= Run(cfg, s, more).calls
    ensures forall c :: c in NewCalls(s, Run(cfg, s, more)) && c.PublishCall? ==> c.event.id != s.rows[id].eventId
  {
    if more != [] {
      var front, step := more[..|more| - 1], Last(more);
      VetoedIsNotPublished(cfg, s, front, id);
      VetoedUntilCancelled(cfg, s, more, id);
      RunsKeepInv(cfg, s, front);
      var t, u := Run(cfg, s, front), Run(cfg, s, more);
      assert t.calls <= u.calls by { AnyStep(cfg, t, step); }
      assert NewCalls(s, u) == NewCalls(s, t) + NewCalls(t, u);
      forall c | c in NewCalls(t, u) && c.PublishCall? ensures c.event.id != s.rows[id].eventId {
        VetoedNotPublishedByStep(cfg, t, step, id, c);
      }
    }
  }

  /**
   * Veto finality. Once a row is vetoed, over any continuation of any run it is
   * still vetoed exactly when no cancel for it came; then it has no signature
   * and no publish call of the continuation carries its event.
   */
  lemma VetoIsFinal(cfg: Config, clock: int, before: seq<Step>, more: seq<Step>, id: RowId)
    requires cfg.Valid() && id < |Reached(cfg, clock, before).rows| && Reached(cfg, clock, before).rows[id].status.Vetoed?
    ensures var s, u := Reached(cfg, clock, before), Reached(cfg, clock, before + more);
            && id < |u.rows|
            && (u.rows[id].status.Vetoed? <==> CancelRequest(id, s.rows[id].pubkey) !in more)
            && (u.rows[id].status.Vetoed? ==>
                  u.rows[id].signed.None? &&
                  forall c :: c in NewCalls(s, u) && c.PublishCall? ==> c.event.id != s.rows[id].eventId)
  {
    var s := Reached(cfg, clock, before);
    RunsKeepInv(cfg, Init(clock), before);
    RunSplits(cfg, Init(clock), before, more);
    RunsKeepInv(cfg, s, more);
    VetoedUntilCancelled(cfg, s, more, id);
    if CancelRequest(id, s.rows[id].pubkey) !in more {
      VetoedIsNotPublished(cfg, s, more, id);
    }
  }

  /** A refused re-request vetoes the row exactly when the first veto among the refusals names its peer. */
  lemma RefusalVetoesIff(cfg: Config, s: State, refusals: seq<PeerRefusal>)
    requires cfg.Valid() && Inv(cfg, s) && AwaitingSign(s) && s.rows[s.pass.todo[0].id].status.Held?
    ensures var u, id := Next(cfg, s, SignRefused(refusals)), s.pass.todo[0].id;
            && id < |u.rows|
            && (u.rows[id].status.Vetoed? <==> FirstVetoed(refusals).Some? && FirstVetoed(refusals).value.peer != "")
            && (FirstVetoed(refusals).Some? && FirstVetoed(refusals).value.peer == "" ==>
                  u.rows[id].status.Held? && u.rows[id].nextAttemptAt == s.pass.now)
  {
    NextRows(cfg, s, SignRefused(refusals));
    ApplyOne(s.rows, FailureOps(cfg, s.pass.todo[0], refusals, s.pass.now)[0]);
  }

  /** A signature that arrives for a row that is not vetoed is stored and published, whatever became of the row. */
  lemma LateSignatureIsPublished(cfg: Config, s: State, signed: NostrEvent)
    requires Inv(cfg, s) && AwaitingSign(s) && signed.id == s.pass.todo[0].row.eventId && !VetoedNow(s.rows, s.pass.todo[0].id)
    ensures var u, id := Next(cfg, s, SignAnswered(signed)), s.pass.todo[0].id;
            |u.rows| == |s.rows| && u.rows[id].status.Signed? && u.calls == s.calls + [PublishCall(id, signed)]
  {
    var h := s.pass.todo[0];
    ApplyOne(s.rows, OpUpdate(h.id, SignedFields(h, signed)));
  }

  /** While the pass waits for the signature of a held row: the row after a veto, after a cancel, and after the signature. */
  lemma VetoCancelAnswer(cfg: Config, s: State, reporter: string, signed: NostrEvent)
    requires cfg.Valid() && Inv(cfg, s) && AwaitingSign(s) && s.rows[s.pass.todo[0].id].status.Held?
    requires signed.id == s.pass.todo[0].row.eventId
    ensures var id := s.pass.todo[0].id;
            var vetoed := Next(cfg, s, Notice(signed.id, reporter));
            var cancelled := Next(cfg, vetoed, CancelRequest(id, s.rows[id].pubkey));
            var u := Next(cfg, cancelled, SignAnswered(signed));
            && |vetoed.rows| == |cancelled.rows| == |u.rows| == |s.rows| && vetoed.rows[id].status.Vetoed?
            && cancelled.rows[id].status.Cancelled? && cancelled.calls == s.calls
            && u.rows[id].status.Signed? && u.calls == s.calls + [PublishCall(id, signed)]
  {
    var id := s.pass.todo[0].id;
    var a, b := Notice(signed.id, reporter), CancelRequest(id, s.rows[id].pubkey);
    ApplyOne(s.rows, OpVeto(signed.id, reporter));
    OutsideStep(cfg, s, a);
    var t := Next(cfg, s, a);
    ApplyOne(t.rows, OpCancel(id, s.rows[id].pubkey));
    OutsideStep(cfg, t, b);
    LateSignatureIsPublished(cfg, Next(cfg, t, b), signed);
  }

  // ------------------------------------------------------------ replaceable kinds

  /** A signature arrives for a row that is no longer live, and it is stored all the same. */
  predicate RevivingAnswer(cfg: Config, s: State, step: Step) {
    step.SignAnswered? && AwaitingSign(s) && s.pass.todo[0].id < |s.rows|
    && step.signed.id == s.pass.todo[0].row.eventId
    && !VetoedNow(s.rows, s.pass.todo[0].id) && !s.rows[s.pass.todo[0].id].Live()
  }

  /** It revives a row whose slot another live row has taken meanwhile. */
  ghost predicate TakesSlotBack(cfg: Config, s: State, step: Step) {
    RevivingAnswer(cfg, s, step) && SlotTaken(s.rows, s.pass.todo[0].id)
  }

  lemma NoUpdateKeepsSlots(t: Table, ops: seq<StoreOp>)
    requires OneLivePerSlot(t) && forall op :: op in ops ==> !op.OpUpdate? && Classified(op)
    ensures OneLivePerSlot(ApplyAll(t, ops))
  {
    forall n | 0 <= n < |ops| ensures !ops[n].OpUpdate? { assert ops[n] in ops; }
    OneLivePerSlotOverRuns(t, ops);
  }

  /** One step breaks "one live row per replaceable slot" exactly when it takes a slot back. */
  lemma SlotStep(cfg: Config, s: State, step: Step)
    requires cfg.Valid() && Inv(cfg, s) && OneLivePerSlot(s.rows)
    ensures OneLivePerSlot(Next(cfg, s, step).rows) <==> !TakesSlotBack(cfg, s, step)
  {
    NextRows(cfg, s, step);
    OpsAreTheirOwn(cfg, s, step);
    var ops := Ops(cfg, s, step);
    if RevivingAnswer(cfg, s, step) {
      RevivingUpdates(cfg, s, step);
    }
    if exists op :: op in ops && op.OpUpdate? {
      assert ops == [ops[0]];
      ApplyOne(s.rows, ops[0]);
      UpdateTakes(cfg, s, step);
      SlotBreaksOnlyByRevival(s.rows, ops[0]);
    } else {
      NoUpdateKeepsSlots(s.rows, ops);
    }
  }

  lemma UpdateTakes(cfg: Config, s: State, step: Step)
    requires Inv(cfg, s) && |Ops(cfg, s, step)| == 1 && Ops(cfg, s, step)[0].OpUpdate?
    ensures var op := Ops(cfg, s, step)[0]; Revives(s.rows, op) && SlotTaken(s.rows, op.id) <==> TakesSlotBack(cfg, s, step)
  {
  }

  lemma RevivingUpdates(cfg: Config, s: State, step: Step)
    requires RevivingAnswer(cfg, s, step)
    ensures exists op :: op in Ops(cfg, s, step) && op.OpUpdate?
  {
    assert Ops(cfg, s, step)[0] in Ops(cfg, s, step);
  }

  /** The state before step n of a run, and whether that step takes a slot back. */
  ghost predicate TakesSlotBackAt(cfg: Config, clock: int, steps: seq<Step>, n: nat)
    requires n < |steps|
  {
    TakesSlotBack(cfg, Reached(cfg, clock, steps[..n]), steps[n])
  }

  ghost predicate OneLiveAt(cfg: Config, clock: int, steps: seq<Step>, n: nat)
    requires n <= |steps|
  {
    OneLivePerSlot(Reached(cfg, clock, steps[..n]).rows)
  }

  ghost predicate OneLiveThroughout(cfg: Config, clock: int, steps: seq<Step>) {
    forall n :: 0 <= n <= |steps| ==> OneLiveAt(cfg, clock, steps, n)
  }

  ghost predicate NeverTakesSlotBack(cfg: Config, clock: int, steps: seq<Step>) {
    forall n :: 0 <= n < |steps| ==> !TakesSlotBackAt(cfg, clock, steps, n)
  }

  lemma OneLiveSplits(cfg: Config, clock: int, steps: seq<Step>)
    requires steps != []
    ensures OneLiveThroughout(cfg, clock, steps)
            <==> OneLiveThroughout(cfg, clock, steps[..|steps| - 1]) && OneLiveAt(cfg, clock, steps, |steps|)
  {
    var front := steps[..|steps| - 1];
    forall n | 0 <= n <= |front| ensures OneLiveAt(cfg, clock, front, n) == OneLiveAt(cfg, clock, steps, n) {
      assert front[..n] == steps[..n];
    }
  }

  lemma TakesSplits(cfg: Config, clock: int, steps: seq<Step>)
    requires steps != []
    ensures NeverTakesSlotBack(cfg, clock, steps)
            <==> NeverTakesSlotBack(cfg, clock, steps[..|steps| - 1]) && !TakesSlotBackAt(cfg, clock, steps, |steps| - 1)
  {
    var front := steps[..|steps| - 1];
    forall n | 0 <= n < |front| ensures TakesSlotBackAt(cfg, clock, front, n) == TakesSlotBackAt(cfg, clock, steps, n) {
      assert front[..n] == steps[..n];
    }
  }

  /** Over any run there is one live row per replaceable slot throughout exactly when no step takes a slot back. */
  lemma {:induction false} OneLivePerSlotReached(cfg: Config, clock: int, steps: seq<Step>)
    requires cfg.Valid()
    ensures OneLiveThroughout(cfg, clock, steps) <==> NeverTakesSlotBack(cfg, clock, steps)
  {
    if steps == [] {
      assert OneLiveAt(cfg, clock, steps, 0);
    } else {
      OneLivePerSlotReached(cfg, clock, steps[..|steps| - 1]);
      OneLiveSplits(cfg, clock, steps);
      TakesSplits(cfg, clock, steps);
      if OneLiveThroughout(cfg, clock, steps[..|steps| - 1]) {
        LastStepSlots(cfg, clock, steps);
      }
    }
  }

  lemma LastStepSlots(cfg: Config, clock: int, steps: seq<Step>)
    requires cfg.Valid() && steps != [] && OneLiveThroughout(cfg, clock, steps[..|steps| - 1])
    ensures OneLiveAt(cfg, clock, steps, |steps|) <==> !TakesSlotBackAt(cfg, clock, steps, |steps| - 1)
  {
    var front := steps[..|steps| - 1];
    RunsKeepInv(cfg, Init(clock), front);
    assert steps[..|steps|] == steps && front[..|front|] == front;
    assert OneLiveAt(cfg, clock, front, |front|);
    SlotStep(cfg, Reached(cfg, clock, front), Last(steps));
  }
}
