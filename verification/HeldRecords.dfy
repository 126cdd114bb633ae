/**
 * What each step leaves behind, in terms of the nodes' and relays' answers alone:
 * the answers a pass awaits in the row they are about, and everything else that
 * may come in between.
 */
module HeldRecords {
  import opened Basics
  import opened HeldConfig
  import opened HeldStore
  import opened HeldPlan
  import opened HeldLifecycle
  import opened HeldSafety
  import opened HeldSubmission

  /** The columns only a publication or a submission writes are as they were. */
  predicate SameBut(a: Row, b: Row) {
    b.(status := a.status, unlockAt := a.unlockAt, nextAttemptAt := a.nextAttemptAt, attempts := a.attempts) == a
  }

  /** A refused re-request that no node vetoed: a is the row before, b after; h is the pass's copy, which was due at `now`. */
  ghost predicate Recorded(cfg: Config, a: Row, b: Row, h: Row, refusals: seq<PeerRefusal>, now: int) {
    var patience := if refusals != [] then 604_800_000 else if h.kind in cfg.delays then cfg.delays[h.kind] else 86_400_000;
    && SameBut(a, b) && b.attempts == h.attempts + 1
    && (if EveryoneDenied(refusals) then b.status == Status.Failed && b.unlockAt == a.unlockAt && b.nextAttemptAt == a.nextAttemptAt
        else if StillLocked(refusals, now) then
          b.status == a.status && LargestUnlock(refusals, b.unlockAt) && b.nextAttemptAt == b.unlockAt + cfg.margin
        else if Limited(refusals) then
          b.status == a.status && b.unlockAt == a.unlockAt && LargestSlot(refusals, b.nextAttemptAt - cfg.margin)
        else if now + cfg.every > h.unlockAt + patience then
          b.status == Status.Failed && b.unlockAt == a.unlockAt && b.nextAttemptAt == a.nextAttemptAt
        else b.status == a.status && b.unlockAt == a.unlockAt && b.nextAttemptAt == now + cfg.every)
  }

  lemma RetryIsRecorded(cfg: Config, a: Row, h: Row, refusals: seq<PeerRefusal>, now: int)
    requires NoVeto(refusals)
    ensures Recorded(cfg, a, SetFields(a, RetryFields(h, PlanRetry(cfg, h, refusals, now))), h, refusals, now)
  {
    VetoAndDenialDecide(cfg, h, refusals, now);
    if !EveryoneDenied(refusals) {
      if StillLocked(refusals, now) {
        PlanFollowsUnlock(cfg, h, refusals, now);
      } else if Limited(refusals) {
        PlanFollowsRateLimit(cfg, h, refusals, now);
      } else {
        PlanWaitsOneInterval(cfg, h, refusals, now);
      }
    }
  }

  /**
   * A re-request the nodes refused: without a veto the row is given up or planned
   * again as their answers say, one attempt more, the rest of it unchanged.
   */
  lemma RefusalIsRecorded(cfg: Config, s: State, refusals: seq<PeerRefusal>)
    requires cfg.Valid() && Inv(cfg, s) && AwaitingSign(s) && NoVeto(refusals)
    requires s.rows[s.pass.todo[0].id].status != Status.Vetoed
    ensures var h, u := s.pass.todo[0], Next(cfg, s, SignRefused(refusals));
            h.id < |u.rows| && Recorded(cfg, s.rows[h.id], u.rows[h.id], h.row, refusals, s.pass.now)
  {
    var h := s.pass.todo[0];
    NextRows(cfg, s, SignRefused(refusals));
    VetoAndDenialDecide(cfg, h.row, refusals, s.pass.now);
    ApplyOne(s.rows, FailureOps(cfg, h, refusals, s.pass.now)[0]);
    RetryIsRecorded(cfg, s.rows[h.id], h.row, refusals, s.pass.now);
  }

  /** A signature of another event counts as a re-request nobody answered. */
  lemma WrongSignatureIsRecorded(cfg: Config, s: State, signed: NostrEvent)
    requires cfg.Valid() && Inv(cfg, s) && AwaitingSign(s) && signed.id != s.pass.todo[0].row.eventId
    requires s.rows[s.pass.todo[0].id].status != Status.Vetoed
    ensures var h, u := s.pass.todo[0], Next(cfg, s, SignAnswered(signed));
            h.id < |u.rows| && Recorded(cfg, s.rows[h.id], u.rows[h.id], h.row, [], s.pass.now)
  {
    var h := s.pass.todo[0];
    NextRows(cfg, s, SignAnswered(signed));
    VetoAndDenialDecide(cfg, h.row, [], s.pass.now);
    ApplyOne(s.rows, FailureOps(cfg, h, [], s.pass.now)[0]);
    RetryIsRecorded(cfg, s.rows[h.id], h.row, [], s.pass.now);
  }

  /** A signature of the event for a row that is not vetoed is stored, with one attempt more, and handed to the relays. */
  lemma SignatureIsRecorded(cfg: Config, s: State, signed: NostrEvent)
    requires Inv(cfg, s) && AwaitingSign(s) && signed.id == s.pass.todo[0].row.eventId
    requires s.rows[s.pass.todo[0].id].status != Status.Vetoed
    ensures var h, u := s.pass.todo[0], Next(cfg, s, SignAnswered(signed));
            && |u.rows| == |s.rows| && u.calls == s.calls + [PublishCall(h.id, signed)]
            && u.rows[h.id] == s.rows[h.id].(status := Signed, signed := Some(signed), attempts := h.row.attempts + 1)
  {
    LateSignatureIsPublished(cfg, s, signed);
    var h := s.pass.todo[0];
    ApplyOne(s.rows, OpUpdate(h.id, SignedFields(h, signed)));
  }

  /** For a vetoed row nothing at all is written. */
  lemma VetoedRowIsLeft(cfg: Config, s: State, signed: NostrEvent)
    requires Inv(cfg, s) && AwaitingSign(s) && s.rows[s.pass.todo[0].id].status == Status.Vetoed
    ensures var id, u := s.pass.todo[0].id, Next(cfg, s, SignAnswered(signed)); |u.rows| == |s.rows| && u.rows[id] == s.rows[id]
  {
    var h := s.pass.todo[0];
    NextRows(cfg, s, SignAnswered(signed));
    if signed.id != h.row.eventId {
      ApplyOne(s.rows, FailureOps(cfg, h, [], s.pass.now)[0]);
    }
  }

  /** Some relay took the event. */
  ghost predicate Taken(results: map<string, string>) {
    exists relay :: relay in results && results[relay] == "ok"
  }

  /**
   * After a publication the row is published exactly when some relay answered ok;
   * otherwise it is due again 5 minutes after the pass began. The relays' answers
   * are kept, and nothing else changes.
   */
  lemma PublicationIsRecorded(cfg: Config, s: State, results: map<string, string>)
    requires Inv(cfg, s) && AwaitingPublish(s)
    ensures var id, u := s.pass.todo[0].id, Next(cfg, s, PublishAnswered(results));
            && |u.rows| == |s.rows|
            && u.rows[id] == if Taken(results) then s.rows[id].(status := Published, publishResults := Some(results))
                             else s.rows[id].(publishResults := Some(results), nextAttemptAt := s.pass.now + 300_000)
  {
    var h := s.pass.todo[0];
    NextRows(cfg, s, PublishAnswered(results));
    ApplyOne(s.rows, OpUpdate(h.id, PublishFields(Some(results), s.pass.now)));
    assert Taken(results) <==> Accepted(results) by {
      assert forall relay :: relay in results ==> results[relay] in results.Values;
    }
  }

  lemma FailedPublicationIsRecorded(cfg: Config, s: State)
    requires Inv(cfg, s) && AwaitingPublish(s)
    ensures var id, u := s.pass.todo[0].id, Next(cfg, s, PublishFailed);
            |u.rows| == |s.rows| && u.rows[id] == s.rows[id].(nextAttemptAt := s.pass.now + 300_000)
  {
    var h := s.pass.todo[0];
    NextRows(cfg, s, PublishFailed);
    ApplyOne(s.rows, OpUpdate(h.id, PublishFields(None, s.pass.now)));
  }

  // ------------------------------------------------------------- which row is next

  /** The pass now waits for the first of these rows: for its signature, or for relays to take the one it has. */
  ghost predicate WaitsFor(s: State, u: State, now: int, todo: seq<Snap>) {
    && todo != [] && u.rows == s.rows && u.clock == s.clock && u.pending == s.pending
    && var h := todo[0];
       if h.row.status == Status.Held then
         u.pass == Busy(now, todo, AwaitSign) && u.calls == s.calls + [SignCall(h.id, s.clock)]
       else
         && h.row.signed.Some? && u.pass == Busy(now, todo, AwaitPublish(h.row.signed.value))
         && u.calls == s.calls + [PublishCall(h.id, h.row.signed.value)]
  }

  lemma NextInTurn(cfg: Config, s: State, t: State, now: int, todo: seq<Snap>)
    requires forall x :: x in todo ==> RowOk(x.row) && x.row.Live()
    ensures var u := Continue(s, now, todo); if todo == [] then u == s.(pass := Idle) else WaitsFor(s, u, now, todo)
  {
    if todo != [] {
      assert todo[0] in todo;
    }
  }

  /**
   * A pass that starts while none is under way copies the due rows and begins with
   * the first of them; with none due it is over at once. One under way is not
   * disturbed.
   */
  lemma PassBegins(cfg: Config, s: State, pubkey: string)
    requires Inv(cfg, s)
    ensures var u, due := Next(cfg, s, PassStarts(pubkey)), DueHeld(s.rows, pubkey, s.clock);
            if s.pass.Busy? then u == s else if due == [] then u == s else WaitsFor(s, u, s.clock, due)
  {
    if s.pass.Idle? {
      var due := DueHeld(s.rows, pubkey, s.clock);
      forall x | x in due ensures RowOk(x.row) && x.row.Live() {
        assert RowOk(s.rows[x.id]);
      }
      NextInTurn(cfg, s, s, s.clock, due);
    }
  }

  /** A refusal, or the end of a publication, is followed by the next copied row; after the last the pass is over. */
  lemma PassGoesOn(cfg: Config, s: State, step: Step)
    requires Inv(cfg, s)
    requires (AwaitingSign(s) && step.SignRefused?) || (AwaitingPublish(s) && (step.PublishAnswered? || step.PublishFailed?))
    ensures var u, rest := Next(cfg, s, step), s.pass.todo[1..];
            if rest == [] then u == s.(pass := Idle, rows := u.rows) else WaitsFor(s.(rows := u.rows), u, s.pass.now, rest)
  {
    var rest := s.pass.todo[1..];
    forall x | x in rest ensures RowOk(x.row) && x.row.Live() {
      var k :| 0 <= k < |rest| && rest[k] == x;
      assert SnapOk(cfg, s.rows[s.pass.todo[k + 1].id], s.pass.todo[k + 1].row, s.pass.now);
    }
    NextInTurn(cfg, s.(rows := ApplyAll(s.rows, Ops(cfg, s, step))), s, s.pass.now, rest);
  }

  // --------------------------------------------------------------- what else may happen

  /** A veto notice vetoes the held rows of its event, naming the reporter, and does nothing else. */
  lemma NoticeIsRecorded(cfg: Config, s: State, eventId: EventId, reporter: string)
    ensures var u := Next(cfg, s, Notice(eventId, reporter));
            && u == s.(rows := u.rows) && |u.rows| == |s.rows|
            && forall i :: 0 <= i < |s.rows| ==>
                 u.rows[i] == if s.rows[i].eventId == eventId && s.rows[i].status == Status.Held
                              then s.rows[i].(status := Status.Vetoed, vetoedBy := Some(reporter)) else s.rows[i]
  {
    ApplyOne(s.rows, OpVeto(eventId, reporter));
  }

  /** A cancel takes back a held or vetoed row of that pubkey, and does nothing else. */
  lemma CancelIsRecorded(cfg: Config, s: State, id: RowId, pubkey: string)
    ensures var u := Next(cfg, s, CancelRequest(id, pubkey));
            && u == s.(rows := u.rows) && |u.rows| == |s.rows|
            && forall i :: 0 <= i < |s.rows| ==>
                 u.rows[i] == if i == id && s.rows[i].pubkey == pubkey && s.rows[i].status in {Status.Held, Status.Vetoed}
                              then s.rows[i].(status := Cancelled) else s.rows[i]
  {
    ApplyOne(s.rows, OpCancel(id, pubkey));
  }

  /** The clock only goes on; a restart loses what was awaited and nothing that is stored. */
  lemma ClockAndRestart(cfg: Config, s: State, to: int)
    ensures Next(cfg, s, Tick(to)) == s.(clock := if to > s.clock then to else s.clock)
    ensures Next(cfg, s, Restart) == s.(pass := Idle, pending := map[])
  {
  }

  /**
   * A submission asks the nodes, with the time it came in, exactly if its kind is
   * delay-gated and every row of its event has failed or was cancelled.
   */
  lemma SubmissionAsks(cfg: Config, s: State, call: nat, event: UnsignedEvent)
    requires UniqueIds(s.rows) && call !in s.pending
    ensures Next(cfg, s, SubmitStarts(call, event)) ==
            if event.kind in cfg.delays
               && forall i :: 0 <= i < |s.rows| && s.rows[i].eventId == EventHash(event) ==> s.rows[i].status in {Failed, Cancelled}
            then s.(pending := s.pending[call := Submission(event, s.clock)]) else s
  {
    var id := EventHash(event);
    forall i | 0 <= i < |s.rows| && s.rows[i].eventId == id ensures AnswersKnown(s.rows[i], AnswerFromStore(s.rows, id)) {
      KnownEventIsAnswered(s.rows, id, i);
    }
    KnownEventIsAnswered(s.rows, id, |s.rows|);
  }

  /**
   * The end of a submission: an event still unknown is stored from the answers, or
   * not at all; one stored meanwhile and no longer held stays as it is.
   */
  lemma SubmissionIsRecorded(cfg: Config, s: State, call: nat, attempts: seq<Attempt>)
    requires UniqueIds(s.rows) && call in s.pending
    ensures var u, event, refusals := Next(cfg, s, SubmitEnds(call, attempts)), s.pending[call].event, AllRefusals(attempts);
            && u == s.(rows := u.rows, pending := s.pending - {call})
            && ((forall i :: 0 <= i < |s.rows| ==> s.rows[i].eventId != EventHash(event)) ==>
                  if (exists a :: a in attempts && a.Fulfilled?) || EveryoneDenied(refusals) then u.rows == s.rows
                  else |u.rows| == |s.rows| + 1 && MadeWay(s.rows, u.rows, event)
                       && StoredFrom(cfg, s.rows, event, s.pending[call].now, refusals, u.rows[|s.rows|]))
            && (forall i :: 0 <= i < |s.rows| && s.rows[i].eventId == EventHash(event) && s.rows[i].status != Status.Held
                  ==> u.rows == s.rows)
  {
    var event, now := s.pending[call].event, s.pending[call].now;
    if forall i :: 0 <= i < |s.rows| ==> s.rows[i].eventId != EventHash(event) {
      NewEventIsHeldUnlessSettled(cfg, s.rows, event, now, attempts);
    }
    forall i | 0 <= i < |s.rows| && s.rows[i].eventId == EventHash(event) && s.rows[i].status != Status.Held
      ensures Next(cfg, s, SubmitEnds(call, attempts)).rows == s.rows
    {
      var k := Find(s.rows, EventHash(event)).value;
      assert k == i by { assert s.rows[Min(i, k)].eventId == s.rows[Max(i, k)].eventId; }
      ResubmittedIsNotHeldAgain(cfg, s.rows, event, now, attempts);
    }
  }
}
