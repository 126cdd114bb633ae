/**
 * When taking a held event back holds. A cancelled or superseded row can still
 * be overwritten by a pass that copied it while it was live; this module says
 * by which steps, and exactly when no continuation has one.
 */
module HeldCancel {
  import opened Basics
  import opened HeldConfig
  import opened HeldStore
  import opened HeldPlan
  import opened HeldLifecycle
  import opened HeldSafety

  /** Taken back: cancelled, or superseded by another event of its slot. */
  predicate Withdrawn(t: Table, id: RowId) {
    id < |t| && (t[id].status.Cancelled? || t[id].status.Superseded?)
  }

  predicate AtHead(s: State, id: RowId) {
    s.pass.Busy? && s.pass.todo != [] && s.pass.todo[0].id == id
  }

  /** The step ends an await for row id with a signature, with giving up, or with a relay that took the event. */
  predicate Overwrites(cfg: Config, s: State, step: Step, id: RowId) {
    AtHead(s, id) && var head := s.pass.todo[0].row;
    match step
    case SignAnswered(signed) => AwaitingSign(s) && (signed.id == head.eventId || PlanRetry(cfg, head, [], s.pass.now).fail)
    case SignRefused(refusals) => AwaitingSign(s) && PlanRetry(cfg, head, refusals, s.pass.now).fail
    case PublishAnswered(results) => AwaitingPublish(s) && Accepted(results)
    case _ => false
  }

  lemma HeadRefused(cfg: Config, s: State, refusals: seq<PeerRefusal>, id: RowId)
    requires cfg.Valid() && Inv(cfg, s) && Withdrawn(s.rows, id) && AtHead(s, id) && AwaitingSign(s)
    ensures var u := ApplyAll(s.rows, FailureOps(cfg, s.pass.todo[0], refusals, s.pass.now));
            |u| == |s.rows| && (u[id].status == s.rows[id].status <==> !PlanRetry(cfg, s.pass.todo[0].row, refusals, s.pass.now).fail)
  {
    ApplyOne(s.rows, FailureOps(cfg, s.pass.todo[0], refusals, s.pass.now)[0]);
  }

  lemma HeadPublished(cfg: Config, s: State, results: Option<map<string, string>>, id: RowId)
    requires Inv(cfg, s) && Withdrawn(s.rows, id) && AtHead(s, id) && AwaitingPublish(s)
    ensures var u := ApplyAll(s.rows, [OpUpdate(id, PublishFields(results, s.pass.now))]);
            |u| == |s.rows| && (u[id].status == s.rows[id].status <==> !(results.Some? && Accepted(results.value)))
  {
    ApplyOne(s.rows, OpUpdate(id, PublishFields(results, s.pass.now)));
  }

  lemma HeadAnswered(cfg: Config, s: State, step: Step, id: RowId)
    requires cfg.Valid() && Inv(cfg, s) && Withdrawn(s.rows, id) && AtHead(s, id) && !IsOutside(step)
    ensures var u := ApplyAll(s.rows, Ops(cfg, s, step));
            |u| == |s.rows| && (u[id].status == s.rows[id].status <==> !Overwrites(cfg, s, step, id))
  {
    if AwaitingSign(s) {
      HeadRefused(cfg, s, if step.SignRefused? then step.refusals else [], id);
      if step.SignAnswered? {
        ApplyOne(s.rows, OpUpdate(id, SignedFields(s.pass.todo[0], step.signed)));
      }
    } else if AwaitingPublish(s) {
      HeadPublished(cfg, s, if step.PublishAnswered? then Some(step.results) else None, id);
    }
  }

  /** One step, exactly: a row taken back stays as it is unless an answer the pass awaited for it overwrites it. */
  lemma WithdrawnStep(cfg: Config, s: State, step: Step, id: RowId)
    requires cfg.Valid() && Inv(cfg, s) && Withdrawn(s.rows, id)
    ensures var u := Next(cfg, s, step).rows;
            id < |u| && (u[id].status == s.rows[id].status <==> !Overwrites(cfg, s, step, id))
  {
    if IsOutside(step) {
      OutsideStep(cfg, s, step);
      assert OutsideRow(s.rows[id], Next(cfg, s, step).rows[id]);
    } else {
      NextRows(cfg, s, step);
      if AtHead(s, id) { HeadAnswered(cfg, s, step, id); } else { PassTouchesHeadOnly(cfg, s, step, id); }
    }
  }

  ghost predicate StaysAfter(cfg: Config, s: State, more: seq<Step>, id: RowId)
    requires id < |s.rows|
  {
    var u := Run(cfg, s, more);
    id < |u.rows| && u.rows[id].status == s.rows[id].status
  }

  ghost predicate StaysThroughout(cfg: Config, s: State, steps: seq<Step>, id: RowId)
    requires id < |s.rows|
  {
    steps == [] || (StaysThroughout(cfg, s, steps[..|steps| - 1], id) && StaysAfter(cfg, s, steps, id))
  }

  predicate NeverOverwritten(cfg: Config, s: State, steps: seq<Step>, id: RowId) {
    steps == [] ||
    (NeverOverwritten(cfg, s, steps[..|steps| - 1], id) && !Overwrites(cfg, Run(cfg, s, steps[..|steps| - 1]), Last(steps), id))
  }

  /** Over any run the row stays taken back throughout exactly when no step overwrites it. */
  lemma {:induction false} WithdrawnOverRuns(cfg: Config, s: State, steps: seq<Step>, id: RowId)
    requires cfg.Valid() && Inv(cfg, s) && Withdrawn(s.rows, id)
    ensures StaysThroughout(cfg, s, steps, id) <==> NeverOverwritten(cfg, s, steps, id)
  {
    if steps != [] {
      var front := steps[..|steps| - 1];
      WithdrawnOverRuns(cfg, s, front, id);
      RunsKeepInv(cfg, s, front);
      if StaysThroughout(cfg, s, front, id) {
        assert StaysAfter(cfg, s, front, id);
        WithdrawnStep(cfg, Run(cfg, s, front), Last(steps), id);
      }
    }
  }

  /** The pass under way has a copy of the row, which it has not dealt with. */
  ghost predicate Copied(s: State, id: RowId) {
    s.pass.Busy? && Among(s.pass.todo, id)
  }

  ghost predicate Among(todo: seq<Snap>, id: RowId) {
    exists k :: 0 <= k < |todo| && todo[k].id == id
  }

  /** The call is neither about row id nor about its event. */
  predicate Spares(c: Call, id: RowId, eventId: EventId) {
    c.id != id && (c.PublishCall? ==> c.event.id != eventId)
  }

  lemma {:induction false} ContinueNamesNone(s: State, now: int, todo: seq<Snap>, id: RowId)
    requires !Among(todo, id)
    ensures var u := Continue(s, now, todo); !Copied(u, id) && s.calls <= u.calls && forall c :: c in NewCalls(s, u) ==> c.id != id
    decreases |todo|
  {
    if todo != [] {
      var tail := todo[1..];
      assert todo[0].id != id && forall k :: 0 <= k < |tail| ==> tail[k] == todo[k + 1];
      ContinueNamesNone(s, now, tail, id);
    }
  }

  lemma NotDue(t: Table, pubkey: string, now: int, id: RowId)
    requires Withdrawn(t, id)
    ensures !Among(DueHeld(t, pubkey, now), id)
  {
    var due := DueHeld(t, pubkey, now);
    forall k | 0 <= k < |due| ensures due[k].id != id {
      assert due[k] in due;
    }
  }

  lemma PassNamesNone(cfg: Config, s: State, step: Step, id: RowId)
    requires cfg.Valid() && Inv(cfg, s) && Withdrawn(s.rows, id) && !Copied(s, id) && !IsOutside(step)
    ensures var u := Next(cfg, s, step); !Copied(u, id) && forall c :: c in NewCalls(s, u) ==> c.id != id
  {
    if step.PassStarts? {
      NotDue(s.rows, step.pubkey, s.clock, id);
      ContinueNamesNone(s, s.clock, DueHeld(s.rows, step.pubkey, s.clock), id);
    } else if s.pass.Busy? {
      var u, todo := s.(rows := ApplyAll(s.rows, Ops(cfg, s, step))), s.pass.todo;
      var tail := todo[1..];
      assert todo[0].id != id && forall k :: 0 <= k < |tail| ==> tail[k] == todo[k + 1];
      ContinueNamesNone(u, s.pass.now, tail, id);
    }
  }

  /** Without a copy, no step makes one, touches the row, or makes a call about it. */
  lemma UncopiedStep(cfg: Config, s: State, step: Step, id: RowId)
    requires cfg.Valid() && Inv(cfg, s) && Withdrawn(s.rows, id) && !Copied(s, id)
    ensures var u := Next(cfg, s, step);
            && id < |u.rows| && u.rows[id].status == s.rows[id].status && u.rows[id].eventId == s.rows[id].eventId
            && !Copied(u, id) && s.calls <= u.calls
            && forall c :: c in NewCalls(s, u) ==> Spares(c, id, s.rows[id].eventId)
  {
    var u := Next(cfg, s, step);
    WithdrawnStep(cfg, s, step, id);
    StatusDiagram(cfg, s, step, id);
    AnyStep(cfg, s, step);
    if IsOutside(step) {
      OutsideStep(cfg, s, step);
    } else {
      PassNamesNone(cfg, s, step, id);
    }
    forall c | c in NewCalls(s, u) ensures Spares(c, id, s.rows[id].eventId) {
      assert CallOk(cfg, u.rows, u.clock, c) && UniqueIds(u.rows);
    }
  }

  /** A row taken back of which the pass has no copy stays so over every continuation, and no new call is about it. */
  lemma {:induction false} WithdrawalIsFinal(cfg: Config, s: State, more: seq<Step>, id: RowId)
    requires cfg.Valid() && Inv(cfg, s) && Withdrawn(s.rows, id) && !Copied(s, id)
    ensures var u := Run(cfg, s, more);
            && id < |u.rows| && u.rows[id].status == s.rows[id].status && u.rows[id].eventId == s.rows[id].eventId
            && !Copied(u, id) && s.calls <= u.calls
            && forall c :: c in NewCalls(s, u) ==> Spares(c, id, s.rows[id].eventId)
  {
    if more != [] {
      var front := more[..|more| - 1];
      WithdrawalIsFinal(cfg, s, front, id);
      RunsKeepInv(cfg, s, front);
      var t, u := Run(cfg, s, front), Run(cfg, s, more);
      UncopiedStep(cfg, t, Last(more), id);
      assert NewCalls(s, u) == NewCalls(s, t) + NewCalls(t, u);
    }
  }

  // ------------------------------------------------------------- a copy is enough to overrule it

  /** The answer after which the pass goes on with its next row. */
  function Unanswered(s: State): Step {
    if AwaitingSign(s) then SignRefused([]) else PublishFailed
  }

  lemma SkipsHead(cfg: Config, s: State, id: RowId)
    requires cfg.Valid() && Inv(cfg, s) && s.pass.Busy? && |s.pass.todo| > 1 && id < |s.rows| && s.pass.todo[0].id != id
    ensures var u, h := Next(cfg, s, Unanswered(s)), s.pass.todo[1];
            && Inv(cfg, u) && |u.rows| == |s.rows| && u.rows[id] == s.rows[id]
            && u.pass.Busy? && u.pass.todo == s.pass.todo[1..]
            && s.calls <= u.calls
            && (h.row.status.Held? ==> u.calls == s.calls + [SignCall(h.id, s.clock)] && u.pass.phase.AwaitSign?)
  {
    var step, h := Unanswered(s), s.pass.todo[1];
    AnyStep(cfg, s, step);
    NextRows(cfg, s, step);
    PassTouchesHeadOnly(cfg, s, step, id);
    assert s.pass.todo[1..][0] == h && SnapOk(cfg, s.rows[h.id], h.row, s.pass.now);
  }

  /** The answer that overwrites the row at the head. */
  function Overruling(s: State): Step
    requires s.pass.Busy? && s.pass.todo != []
  {
    var head := s.pass.todo[0].row;
    if AwaitingSign(s) then SignAnswered(NostrEvent(head.event, head.eventId, "")) else PublishAnswered(map["" := "ok"])
  }

  /** A call of the continuation from s to u asks for row id. */
  ghost predicate AskedAgain(s: State, u: State, id: RowId) {
    exists c :: c in NewCalls(s, u) && c.SignCall? && c.id == id
  }

  /** The row is signed after all, and its signature handed to the relays last. */
  predicate HandedOver(u: State, id: RowId) {
    && id < |u.rows| && u.rows[id].status.Signed? && u.rows[id].signed.Some?
    && u.calls != [] && Last(u.calls) == PublishCall(id, u.rows[id].signed.value)
  }

  lemma HeadOverruled(cfg: Config, s: State, id: RowId)
    requires cfg.Valid() && Inv(cfg, s) && Withdrawn(s.rows, id) && AtHead(s, id)
    ensures var u := Next(cfg, s, Overruling(s));
            && id < |u.rows| && u.rows[id].status != s.rows[id].status && s.calls <= u.calls
            && (AwaitingSign(s) ==> HandedOver(u, id))
  {
    var step := Overruling(s);
    AnyStep(cfg, s, step);
    WithdrawnStep(cfg, s, step, id);
    if AwaitingSign(s) {
      LateSignatureIsPublished(cfg, s, step.signed);
    } else {
      assert map["" := "ok"][""] == "ok" && Accepted(step.results);
    }
  }

  /** The row is no longer as in s; if the pass had still to ask for it, it is signed and handed over. */
  ghost predicate Overruled(s: State, u: State, id: RowId, k: nat)
    requires id < |s.rows| && s.pass.Busy? && k < |s.pass.todo|
  {
    && id < |u.rows| && u.rows[id].status != s.rows[id].status && s.calls <= u.calls
    && (k > 0 && s.pass.todo[k].row.status.Held? ==> AskedAgain(s, u, id) && HandedOver(u, id))
    && (k == 0 && AwaitingSign(s) ==> HandedOver(u, id))
  }

  lemma AskedOnTheWay(s: State, t: State, u: State, id: RowId, k: nat)
    requires s.pass.Busy? && 0 < k < |s.pass.todo| && s.pass.todo[k].id == id && s.pass.todo[k].row.status.Held?
    requires s.calls <= t.calls <= u.calls && (k > 1 ==> AskedAgain(t, u, id))
    requires s.pass.todo[1].row.status.Held? ==> t.calls == s.calls + [SignCall(s.pass.todo[1].id, s.clock)]
    ensures AskedAgain(s, u, id)
  {
    if k == 1 {
      assert NewCalls(s, u)[0] == SignCall(id, s.clock);
    } else {
      var c :| c in NewCalls(t, u) && c.SignCall? && c.id == id;
      assert NewCalls(s, u) == NewCalls(s, t) + NewCalls(t, u);
    }
  }

  lemma SkippedOverruled(s: State, t: State, u: State, id: RowId, k: nat)
    requires id < |s.rows| && s.pass.Busy? && 0 < k < |s.pass.todo| && s.pass.todo[k].id == id
    requires |t.rows| == |s.rows| && t.rows[id] == s.rows[id] && t.pass.Busy? && t.pass.todo == s.pass.todo[1..]
    requires var h := s.pass.todo[1];
             && (h.row.status.Held? ==> t.calls == s.calls + [SignCall(h.id, s.clock)] && t.pass.phase.AwaitSign?)
             && s.calls <= t.calls
    requires Overruled(t, u, id, k - 1)
    ensures Overruled(s, u, id, k)
  {
    assert s.pass.todo[1..][k - 1] == s.pass.todo[k];
    if s.pass.todo[k].row.status.Held? {
      AskedOnTheWay(s, t, u, id, k);
    }
  }

  /**
   * A row taken back of which the pass has a copy is overruled in some
   * continuation. If the pass has still to ask for it, it even does so after the
   * row was taken back, and the row ends signed and handed to the relays.
   */
  lemma {:induction false} CopyOverrules(cfg: Config, s: State, id: RowId, k: nat) returns (more: seq<Step>)
    requires cfg.Valid() && Inv(cfg, s) && Withdrawn(s.rows, id)
    requires s.pass.Busy? && k < |s.pass.todo| && s.pass.todo[k].id == id
    ensures Overruled(s, Run(cfg, s, more), id, k)
    decreases k
  {
    if k == 0 {
      more := [Overruling(s)];
      HeadOverruled(cfg, s, id);
      RunOne(cfg, s, Overruling(s));
    } else {
      OtherHead(s, id, k);
      SkipsHead(cfg, s, id);
      var t := Next(cfg, s, Unanswered(s));
      var rest := CopyOverrules(cfg, t, id, k - 1);
      more := [Unanswered(s)] + rest;
      RunOne(cfg, s, Unanswered(s));
      RunSplits(cfg, s, [Unanswered(s)], rest);
      SkippedOverruled(s, t, Run(cfg, t, rest), id, k);
    }
  }

  lemma OtherHead(s: State, id: RowId, k: nat)
    requires s.pass.Busy? && DistinctIds(s.pass.todo) && 0 < k < |s.pass.todo| && s.pass.todo[k].id == id
    ensures s.pass.todo[0].id != id
  {
  }

  lemma RunOne(cfg: Config, s: State, step: Step)
    ensures Run(cfg, s, [step]) == Next(cfg, s, step)
  {
    RunOneMore(cfg, s, [], step);
    assert [] + [step] == [step];
  }

  /**
   * Cancel finality, exactly: a row cancelled or superseded in some run stays so
   * over every continuation if and only if the pass under way has no copy of it.
   */
  lemma WithdrawalHoldsIff(cfg: Config, clock: int, before: seq<Step>, id: RowId)
    requires cfg.Valid() && Withdrawn(Reached(cfg, clock, before).rows, id)
    ensures var s := Reached(cfg, clock, before);
            (forall more :: StaysAfter(cfg, s, more, id)) <==> !Copied(s, id)
  {
    var s := Reached(cfg, clock, before);
    RunsKeepInv(cfg, Init(clock), before);
    if Copied(s, id) {
      var k :| 0 <= k < |s.pass.todo| && s.pass.todo[k].id == id;
      var more := CopyOverrules(cfg, s, id, k);
      assert !StaysAfter(cfg, s, more, id);
    } else {
      forall more ensures StaysAfter(cfg, s, more, id) {
        WithdrawalIsFinal(cfg, s, more, id);
      }
    }
  }
}
