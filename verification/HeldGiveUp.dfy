/** How often the scheduler re-requests one held event before it gives up. */
module HeldGiveUp {
  import opened Basics
  import opened HeldConfig
  import opened HeldStore
  import opened HeldPlan
  import opened HeldLifecycle
  import opened HeldSafety

  /** Re-requests of row id among the calls. */
  function Requests(calls: seq<Call>, id: RowId): nat {
    if calls == [] then 0
    else Requests(calls[..|calls| - 1], id) + if Last(calls).SignCall? && Last(calls).id == id then 1 else 0
  }

  lemma RequestsOneMore(calls: seq<Call>, c: Call, id: RowId)
    ensures Requests(calls + [c], id) == Requests(calls, id) + if c.SignCall? && c.id == id then 1 else 0
  {
    assert (calls + [c])[..|calls|] == calls;
  }

  /** floor((max(delay, 7 days) - margin) / interval) + 1, or 1 when the margin alone exceeds the patience. */
  function MaxRequests(cfg: Config, kind: int): nat
    requires cfg.Valid()
  {
    if Patience(cfg, kind) < cfg.margin then 1 else (Patience(cfg, kind) - cfg.margin) / cfg.every + 1
  }

  /** n retry intervals. */
  function Intervals(cfg: Config, n: nat): int {
    if n == 0 then 0 else Intervals(cfg, n - 1) + cfg.every
  }

  lemma {:induction false} IntervalsIs(cfg: Config, n: nat)
    ensures Intervals(cfg, n) == n * cfg.every
  {
    if n > 0 {
      IntervalsIs(cfg, n - 1);
      assert n * cfg.every == (n - 1) * cfg.every + cfg.every;
    }
  }

  /** After n re-requests the next one waits at least n intervals, and it is within the patience. */
  predicate Waited(cfg: Config, r: Row, n: nat) {
    n > 0 ==>
      && Intervals(cfg, n) <= r.nextAttemptAt - r.unlockAt - cfg.margin
      && r.nextAttemptAt <= r.unlockAt + Patience(cfg, r.kind)
  }

  lemma OneMoreIsAllowed(cfg: Config, r: Row, n: nat)
    requires cfg.Valid() && Waited(cfg, r, n)
    ensures n + 1 <= MaxRequests(cfg, r.kind)
  {
    IntervalsIs(cfg, n);
    if n > 0 {
      var room := Patience(cfg, r.kind) - cfg.margin;
      var e, q := cfg.every, room / cfg.every;
      assert 0 < n * e <= room;
      assert room == q * e + room % e;
      assert (q + 1) * e == q * e + e;
      MulLess(n, q + 1, e);
    }
  }

  lemma MulLess(a: int, b: int, e: int)
    requires e > 0
    ensures a * e < b * e ==> a < b
  {
    assert a >= b ==> (a - b) * e >= 0;
    assert (a - b) * e == a * e - b * e;
  }

  predicate InFlight(s: State, id: RowId) {
    AwaitingSign(s) && s.pass.todo[0].id == id
  }

  ghost predicate Queued(todo: seq<Snap>, id: RowId) {
    exists k :: 0 <= k < |todo| && todo[k].id == id && todo[k].row.status.Held?
  }

  ghost predicate Waiting(s: State, id: RowId)
    requires id < |s.rows|
  {
    s.rows[id].status.Held? || (s.pass.Busy? && s.pass.todo != [] && Queued(s.pass.todo[1..], id))
  }

  /** Of the re-requests of row id all but `past` have each cost the row one interval. */
  ghost predicate CountOk(cfg: Config, s: State, id: RowId, past: nat)
    requires cfg.Valid()
  {
    var n := Requests(s.calls, id) - past;
    if id >= |s.rows| then Requests(s.calls, id) == 0 == past
    else
      var r := s.rows[id];
      && 0 <= n <= MaxRequests(cfg, r.kind)
      && (InFlight(s, id) ==> n >= 1 && Waited(cfg, r, n - 1))
      && (!InFlight(s, id) && Waiting(s, id) ==> Waited(cfg, r, n))
  }

  /** The step is an answer that puts row id off: a node postponed it. */
  predicate PutsOff(s: State, step: Step, id: RowId) {
    step.SignRefused? && InFlight(s, id) && PutOff(step.refusals, s.pass.now)
  }

  /** The step is a restart that cuts off a re-request of row id. */
  predicate CutsOff(s: State, step: Step, id: RowId) {
    step.Restart? && InFlight(s, id)
  }

  /** How many re-requests of row id the restarts of a run cut off. */
  function Lost(cfg: Config, clock: int, steps: seq<Step>, id: RowId): nat {
    if steps == [] then 0
    else
      var front := steps[..|steps| - 1];
      Lost(cfg, clock, front, id) + if CutsOff(Reached(cfg, clock, front), Last(steps), id) then 1 else 0
  }

  /** How many re-requests of row id were answered in a run by putting it off. */
  function Postponed(cfg: Config, clock: int, steps: seq<Step>, id: RowId): nat {
    if steps == [] then 0
    else
      var front := steps[..|steps| - 1];
      Postponed(cfg, clock, front, id) + if PutsOff(Reached(cfg, clock, front), Last(steps), id) then 1 else 0
  }

  /** The count of intervals starts again when the row is put off, and skips what a restart cuts off. */
  function PastAfter(s: State, step: Step, id: RowId, past: nat): nat {
    if PutsOff(s, step, id) then Requests(s.calls, id) else past + if CutsOff(s, step, id) then 1 else 0
  }

  function Past(cfg: Config, clock: int, steps: seq<Step>, id: RowId): nat {
    if steps == [] then 0
    else
      var front := steps[..|steps| - 1];
      PastAfter(Reached(cfg, clock, front), Last(steps), id, Past(cfg, clock, front, id))
  }

  /** The pass may go on with todo: if row id may be asked again, it has waited. */
  ghost predicate Ready(cfg: Config, s: State, todo: seq<Snap>, id: RowId, past: nat)
    requires cfg.Valid()
  {
    var n := Requests(s.calls, id) - past;
    && DistinctIds(todo) && (forall k :: 0 <= k < |todo| ==> todo[k].id < |s.rows|)
    && if id >= |s.rows| then Requests(s.calls, id) == 0 == past
       else 0 <= n <= MaxRequests(cfg, s.rows[id].kind) && (s.rows[id].status.Held? || Queued(todo, id) ==> Waited(cfg, s.rows[id], n))
  }

  /** The pass asks for the row at the head. */
  lemma RequestCounts(cfg: Config, s: State, now: int, todo: seq<Snap>, id: RowId, past: nat)
    requires cfg.Valid() && Ready(cfg, s, todo, id, past) && todo != [] && Ready(cfg, s, todo[1..], id, past) && todo[0].row.status.Held?
    ensures CountOk(cfg, Continue(s, now, todo), id, past)
  {
    var h := todo[0];
    RequestsOneMore(s.calls, SignCall(h.id, s.clock), id);
    if h.id == id {
      assert Queued(todo, id) by { assert todo[0].id == id; }
      OneMoreIsAllowed(cfg, s.rows[id], Requests(s.calls, id) - past);
    }
  }

  lemma {:induction false} ContinueCounts(cfg: Config, s: State, now: int, todo: seq<Snap>, id: RowId, past: nat)
    requires cfg.Valid() && Ready(cfg, s, todo, id, past)
    ensures CountOk(cfg, Continue(s, now, todo), id, past)
    decreases |todo|
  {
    if todo != [] {
      var h, tail := todo[0], todo[1..];
      TailReady(cfg, s, todo, id, past);
      if h.row.status.Held? {
        RequestCounts(cfg, s, now, todo, id, past);
      } else if h.row.signed.Some? {
        RequestsOneMore(s.calls, PublishCall(h.id, h.row.signed.value), id);
      } else {
        ContinueCounts(cfg, s, now, tail, id, past);
      }
    }
  }

  lemma TailReady(cfg: Config, s: State, todo: seq<Snap>, id: RowId, past: nat)
    requires cfg.Valid() && Ready(cfg, s, todo, id, past) && todo != []
    ensures Ready(cfg, s, todo[1..], id, past)
  {
    var tail := todo[1..];
    if Queued(tail, id) {
      var k :| 0 <= k < |tail| && tail[k].id == id && tail[k].row.status.Held?;
      assert todo[k + 1] == tail[k];
    }
  }

  /** A failed re-request that was not put off: if the row is still held, it has waited one interval more. */
  lemma FailureCounts(cfg: Config, s: State, refusals: seq<PeerRefusal>, id: RowId, past: nat)
    requires cfg.Valid() && Inv(cfg, s) && InFlight(s, id) && CountOk(cfg, s, id, past) && !PutOff(refusals, s.pass.now)
    ensures var u := ApplyAll(s.rows, FailureOps(cfg, s.pass.todo[0], refusals, s.pass.now));
            && |u| == |s.rows| && u[id].kind == s.rows[id].kind
            && (u[id].status.Held? ==> Waited(cfg, u[id], Requests(s.calls, id) - past))
  {
    var h, now := s.pass.todo[0], s.pass.now;
    ApplyOne(s.rows, FailureOps(cfg, h, refusals, now)[0]);
    if FirstVetoed(refusals).None? {
      PlanWithinPatience(cfg, h.row, refusals, now);
    }
  }

  lemma OutsideCounts(cfg: Config, s: State, step: Step, id: RowId, past: nat)
    requires cfg.Valid() && Inv(cfg, s) && CountOk(cfg, s, id, past) && IsOutside(step)
    ensures CountOk(cfg, Next(cfg, s, step), id, past)
  {
    OutsideStep(cfg, s, step);
    SameCount(cfg, s, Next(cfg, s, step), id, past);
  }

  lemma SameCount(cfg: Config, s: State, u: State, id: RowId, past: nat)
    requires cfg.Valid() && CountOk(cfg, s, id, past) && u.calls == s.calls && u.pass == s.pass
    requires Outside(s.rows, u.rows) && NewRowsUntried(cfg, s.rows, u.rows)
    requires s.pass.Busy? && s.pass.todo != [] ==> forall k :: 0 <= k < |s.pass.todo| ==> s.pass.todo[k].id < |s.rows|
    ensures CountOk(cfg, u, id, past)
  {
    if id < |s.rows| {
      assert OutsideRow(s.rows[id], u.rows[id]);
    } else if id < |u.rows| {
      assert !InFlight(u, id);
    }
  }

  lemma StartCounts(cfg: Config, s: State, pubkey: string, id: RowId, past: nat)
    requires cfg.Valid() && CountOk(cfg, s, id, past)
    ensures CountOk(cfg, Next(cfg, s, PassStarts(pubkey)), id, past)
  {
    if s.pass.Idle? {
      var due := DueHeld(s.rows, pubkey, s.clock);
      forall k | 0 <= k < |due| ensures due[k].id < |s.rows| && due[k].row == s.rows[due[k].id] { assert due[k] in due; }
      ContinueCounts(cfg, s, s.clock, due, id, past);
    }
  }

  lemma RestartCounts(cfg: Config, s: State, id: RowId, past: nat)
    requires cfg.Valid() && Inv(cfg, s) && CountOk(cfg, s, id, past)
    ensures CountOk(cfg, Next(cfg, s, Restart), id, past + if CutsOff(s, Restart, id) then 1 else 0)
  {
  }

  lemma CountStep(cfg: Config, s: State, step: Step, id: RowId, past: nat)
    requires cfg.Valid() && Inv(cfg, s) && CountOk(cfg, s, id, past)
    ensures CountOk(cfg, Next(cfg, s, step), id, PastAfter(s, step, id, past))
  {
    if IsOutside(step) {
      OutsideCounts(cfg, s, step, id, past);
    } else if step.PassStarts? {
      StartCounts(cfg, s, step.pubkey, id, past);
    } else if step.Restart? {
      RestartCounts(cfg, s, id, past);
    } else if PutsOff(s, step, id) {
      PutOffCounts(cfg, s, step, id, past);
    } else if s.pass.Busy? {
      CountPassStep(cfg, s, step, id, past);
    }
  }

  /** Whatever the row had waited, after it is put off nothing is counted yet. */
  lemma PutOffCounts(cfg: Config, s: State, step: Step, id: RowId, past: nat)
    requires cfg.Valid() && Inv(cfg, s) && CountOk(cfg, s, id, past) && PutsOff(s, step, id)
    ensures CountOk(cfg, Next(cfg, s, step), id, Requests(s.calls, id))
  {
    var u := s.(rows := ApplyAll(s.rows, Ops(cfg, s, step)));
    ApplyOne(s.rows, Ops(cfg, s, step)[0]);
    ContinueCounts(cfg, u, s.pass.now, s.pass.todo[1..], id, Requests(s.calls, id));
  }

  lemma OtherRowsReady(cfg: Config, s: State, step: Step, id: RowId, past: nat)
    requires cfg.Valid() && Inv(cfg, s) && CountOk(cfg, s, id, past)
    requires !IsOutside(step) && !step.PassStarts? && !step.Restart? && s.pass.Busy? && s.pass.todo[0].id != id
    ensures Ready(cfg, s.(rows := ApplyAll(s.rows, Ops(cfg, s, step))), s.pass.todo[1..], id, past)
  {
    var u := s.(rows := ApplyAll(s.rows, Ops(cfg, s, step)));
    if id < |s.rows| {
      PassTouchesHeadOnly(cfg, s, step, id);
      RestReady(cfg, s, u, id, past);
    } else if Ops(cfg, s, step) != [] {
      ApplyOne(s.rows, Ops(cfg, s, step)[0]);
    }
  }

  lemma RestReady(cfg: Config, s: State, u: State, id: RowId, past: nat)
    requires cfg.Valid() && Inv(cfg, s) && CountOk(cfg, s, id, past) && s.pass.Busy? && s.pass.todo[0].id != id
    requires u.calls == s.calls && |u.rows| == |s.rows| && id < |s.rows| && u.rows[id] == s.rows[id]
    ensures Ready(cfg, u, s.pass.todo[1..], id, past)
  {
  }

  lemma HeadReady(cfg: Config, s: State, step: Step, id: RowId, past: nat)
    requires cfg.Valid() && Inv(cfg, s) && CountOk(cfg, s, id, past) && !PutsOff(s, step, id)
    requires step.SignAnswered? || step.SignRefused? ==> AwaitingSign(s)
    requires step.PublishAnswered? || step.PublishFailed? ==> AwaitingPublish(s)
    requires !IsOutside(step) && !step.PassStarts? && !step.Restart? && s.pass.Busy? && s.pass.todo[0].id == id
    ensures Ready(cfg, s.(rows := ApplyAll(s.rows, Ops(cfg, s, step))), s.pass.todo[1..], id, past)
  {
    var todo := s.pass.todo;
    assert !Queued(todo[1..], id) by {
      forall k | 0 <= k < |todo| - 1 ensures todo[1..][k].id != id { assert todo[1..][k] == todo[k + 1]; }
    }
    if step.SignRefused? {
      FailureCounts(cfg, s, step.refusals, id, past);
    } else if step.SignAnswered? && step.signed.id != todo[0].row.eventId {
      FailureCounts(cfg, s, [], id, past);
    } else if Ops(cfg, s, step) != [] {
      ApplyOne(s.rows, Ops(cfg, s, step)[0]);
    }
  }

  lemma CountPassStep(cfg: Config, s: State, step: Step, id: RowId, past: nat)
    requires cfg.Valid() && Inv(cfg, s) && CountOk(cfg, s, id, past) && !PutsOff(s, step, id)
    requires !IsOutside(step) && !step.PassStarts? && !step.Restart? && s.pass.Busy?
    ensures CountOk(cfg, Next(cfg, s, step), id, past)
  {
    var todo := s.pass.todo;
    var u := s.(rows := ApplyAll(s.rows, Ops(cfg, s, step)));
    if (step.SignAnswered? || step.SignRefused?) && !AwaitingSign(s) {
    } else if (step.PublishAnswered? || step.PublishFailed?) && !AwaitingPublish(s) {
    } else {
      if id == todo[0].id { HeadReady(cfg, s, step, id, past); } else { OtherRowsReady(cfg, s, step, id, past); }
      if step.SignAnswered? && step.signed.id == todo[0].row.eventId && !VetoedNow(s.rows, todo[0].id) {
        RequestsOneMore(s.calls, PublishCall(todo[0].id, step.signed), id);
      } else {
        ContinueCounts(cfg, u, s.pass.now, todo[1..], id, past);
      }
    }
  }

  ghost predicate Counted(cfg: Config, s: State, id: RowId, past: nat)
    requires cfg.Valid()
  {
    Inv(cfg, s) && CountOk(cfg, s, id, past)
  }

  /** u comes after s. */
  lemma CountNext(cfg: Config, s: State, step: Step, id: RowId, past: nat, u: State, more: nat)
    requires cfg.Valid() && Counted(cfg, s, id, past)
    requires u == Next(cfg, s, step) && more == PastAfter(s, step, id, past)
    ensures Counted(cfg, u, id, more)
  {
    AnyStep(cfg, s, step);
    CountStep(cfg, s, step, id, past);
  }

  lemma WithinCount(cfg: Config, s: State, id: RowId, past: nat)
    requires cfg.Valid() && id < |s.rows| && CountOk(cfg, s, id, past)
    ensures Requests(s.calls, id) <= MaxRequests(cfg, s.rows[id].kind) + past
    ensures s.rows[id].status.Held? && !InFlight(s, id) ==> Requests(s.calls, id) < MaxRequests(cfg, s.rows[id].kind) + past
  {
    if s.rows[id].status.Held? && !InFlight(s, id) {
      OneMoreIsAllowed(cfg, s.rows[id], Requests(s.calls, id) - past);
    }
  }

  /** n rounds of at most m re-requests, and `lost` more. */
  function Rounds(n: nat, m: nat, lost: nat): nat {
    if n == 0 then lost else m + Rounds(n - 1, m, lost)
  }

  lemma {:induction false} RoundsIs(n: nat, m: nat, lost: nat)
    ensures Rounds(n, m, lost) == n * m + lost
  {
    if n > 0 {
      RoundsIs(n - 1, m, lost);
      assert n * m == (n - 1) * m + m;
    }
  }

  /** Each time the row is put off the count starts again after at most MaxRequests. */
  lemma PastGrows(cfg: Config, s: State, step: Step, id: RowId, past: nat, postponed: nat, lost: nat)
    requires cfg.Valid() && Counted(cfg, s, id, past) && id < |s.rows|
    requires past <= Rounds(postponed, MaxRequests(cfg, s.rows[id].kind), lost)
    ensures PastAfter(s, step, id, past)
            <= Rounds(postponed + if PutsOff(s, step, id) then 1 else 0, MaxRequests(cfg, s.rows[id].kind),
                      lost + if CutsOff(s, step, id) then 1 else 0)
  {
    WithinCount(cfg, s, id, past);
    OneLost(postponed, MaxRequests(cfg, s.rows[id].kind), lost);
  }

  lemma {:induction false} OneLost(n: nat, m: nat, lost: nat)
    ensures Rounds(n, m, lost + 1) == Rounds(n, m, lost) + 1
  {
    if n > 0 {
      OneLost(n - 1, m, lost);
    }
  }

  /** The count of a run: what is past fits the answers that put the row off and the restarts. */
  ghost predicate CountedWithin(cfg: Config, s: State, id: RowId, past: nat, postponed: nat, lost: nat)
    requires cfg.Valid()
  {
    && Counted(cfg, s, id, past)
    && (id < |s.rows| ==> past <= Rounds(postponed, MaxRequests(cfg, s.rows[id].kind), lost))
  }

  lemma PastNext(cfg: Config, s: State, step: Step, id: RowId, past: nat, postponed: nat, lost: nat,
                 u: State, past1: nat, postponed1: nat, lost1: nat)
    requires cfg.Valid() && CountedWithin(cfg, s, id, past, postponed, lost) && u == Next(cfg, s, step)
    requires past1 == PastAfter(s, step, id, past)
    requires postponed1 == postponed + if PutsOff(s, step, id) then 1 else 0
    requires lost1 == lost + if CutsOff(s, step, id) then 1 else 0
    ensures CountedWithin(cfg, u, id, past1, postponed1, lost1)
  {
    CountNext(cfg, s, step, id, past, u, past1);
    if id < |s.rows| {
      StatusDiagram(cfg, s, step, id);
      PastGrows(cfg, s, step, id, past, postponed, lost);
    }
  }

  lemma {:induction false} CountOverRuns(cfg: Config, clock: int, steps: seq<Step>, id: RowId)
    requires cfg.Valid()
    ensures CountedWithin(cfg, Reached(cfg, clock, steps), id, Past(cfg, clock, steps, id),
                          Postponed(cfg, clock, steps, id), Lost(cfg, clock, steps, id))
  {
    if steps != [] {
      var front := steps[..|steps| - 1];
      CountOverRuns(cfg, clock, front, id);
      PastNext(cfg, Reached(cfg, clock, front), Last(steps), id, Past(cfg, clock, front, id),
               Postponed(cfg, clock, front, id), Lost(cfg, clock, front, id),
               Reached(cfg, clock, steps), Past(cfg, clock, steps, id),
               Postponed(cfg, clock, steps, id), Lost(cfg, clock, steps, id));
    }
  }

  /** At most n re-requests of row id; when there are n and the last was answered, the row is not held. */
  predicate AtMost(s: State, id: RowId, n: int)
    requires id < |s.rows|
  {
    Requests(s.calls, id) <= n && (Requests(s.calls, id) == n && !InFlight(s, id) ==> !s.rows[id].status.Held?)
  }

  /** What row id may be re-requested when it was put off and cut off that often. */
  predicate BoundedBy(cfg: Config, s: State, id: RowId, postponed: nat, lost: nat)
    requires cfg.Valid() && id < |s.rows|
  {
    AtMost(s, id, (postponed + 1) * MaxRequests(cfg, s.rows[id].kind) + lost)
  }

  lemma WithinRounds(cfg: Config, s: State, id: RowId, past: nat, postponed: nat, lost: nat)
    requires cfg.Valid() && CountedWithin(cfg, s, id, past, postponed, lost) && id < |s.rows|
    ensures BoundedBy(cfg, s, id, postponed, lost)
  {
    WithinCount(cfg, s, id, past);
    RoundsIs(postponed + 1, MaxRequests(cfg, s.rows[id].kind), lost);
  }

  lemma WithinOneRound(cfg: Config, s: State, id: RowId, past: nat, lost: nat)
    requires cfg.Valid() && CountedWithin(cfg, s, id, past, 0, lost) && id < |s.rows|
    ensures AtMost(s, id, MaxRequests(cfg, s.rows[id].kind) + lost)
  {
    WithinRounds(cfg, s, id, past, 0, lost);
  }

  /**
   * Over every run, whatever the nodes answer: row id is re-requested at most
   * MaxRequests times, as many times more for each answer that puts it off, and
   * once more for each re-request a restart cut off before its answer; when that
   * many have been answered, the row is no longer held.
   */
  lemma BoundedRequests(cfg: Config, clock: int, steps: seq<Step>, id: RowId)
    requires cfg.Valid() && id < |Reached(cfg, clock, steps).rows|
    ensures BoundedBy(cfg, Reached(cfg, clock, steps), id, Postponed(cfg, clock, steps, id), Lost(cfg, clock, steps, id))
  {
    CountOverRuns(cfg, clock, steps, id);
    WithinRounds(cfg, Reached(cfg, clock, steps), id, Past(cfg, clock, steps, id),
                 Postponed(cfg, clock, steps, id), Lost(cfg, clock, steps, id));
  }

  /**
   * Bounded give-up: where no answer puts row id off, it is re-requested at most
   * MaxRequests times and once more for each re-request a restart cut off; when
   * that many have been answered, the row is no longer held.
   */
  lemma BoundedGiveUp(cfg: Config, clock: int, steps: seq<Step>, id: RowId)
    requires cfg.Valid() && id < |Reached(cfg, clock, steps).rows| && Postponed(cfg, clock, steps, id) == 0
    ensures var s := Reached(cfg, clock, steps);
            AtMost(s, id, MaxRequests(cfg, s.rows[id].kind) + Lost(cfg, clock, steps, id))
  {
    CountOverRuns(cfg, clock, steps, id);
    WithinOneRound(cfg, Reached(cfg, clock, steps), id, Past(cfg, clock, steps, id), Lost(cfg, clock, steps, id));
  }
}
