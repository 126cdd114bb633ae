/** When to re-request a held event after a failed attempt (planRetry in src/cinderella/held-events.ts). */
module HeldPlan {
  import opened Basics
  import opened HeldConfig
  import opened HeldStore

  const PUBLISH_RETRY_MS: int := 5 * 60_000
  const ANSWERED_GIVE_UP_MS: int := 7 * 24 * HOUR

  datatype RetryPlan = RetryPlan(fail: bool, nextAttemptAt: int, unlockAt: Option<int>, vetoedBy: Option<string>)

  /** The largest of the times f reads off the refusals, if any has one. */
  function Latest(refusals: seq<PeerRefusal>, f: PeerRefusal -> Option<int>): (r: Option<int>)
    ensures r.None? <==> forall x :: x in refusals ==> f(x).None?
    ensures r.Some? ==> exists x :: x in refusals && f(x) == r
    ensures r.Some? ==> forall x :: x in refusals && f(x).Some? ==> f(x).value <= r.value
  {
    if refusals == [] then None
    else
      var rest, t := Latest(refusals[1..], f), f(refusals[0]);
      assert refusals == [refusals[0]] + refusals[1..];
      if t.None? then rest else if rest.None? || rest.value < t.value then t else rest
  }

  function UnlockOf(r: PeerRefusal): Option<int> {
    if r.code.Locked? || r.code.Held? then r.unlockAt else None
  }

  function SlotOf(r: PeerRefusal): Option<int> {
    if r.code.RateLimited? then r.retryAt else None
  }

  function ReportedUnlock(refusals: seq<PeerRefusal>): Option<int> {
    Latest(refusals, UnlockOf)
  }

  function RateLimitEnd(refusals: seq<PeerRefusal>): Option<int> {
    Latest(refusals, SlotOf)
  }

  /** The first refusal that says vetoed. */
  function FirstVetoed(refusals: seq<PeerRefusal>): (r: Option<PeerRefusal>)
    ensures r.None? <==> forall x :: x in refusals ==> !x.code.Vetoed?
    ensures r.Some? ==> r.value in refusals && r.value.code.Vetoed?
  {
    if refusals == [] then None
    else if refusals[0].code.Vetoed? then Some(refusals[0])
    else FirstVetoed(refusals[1..])
  }

  predicate AllDenied(refusals: seq<PeerRefusal>) {
    refusals != [] && forall r :: r in refusals ==> r.code.Denied?
  }

  function PlanRetry(cfg: Config, held: Row, refusals: seq<PeerRefusal>, now: int): RetryPlan {
    var vetoed, unlock, limited := FirstVetoed(refusals), ReportedUnlock(refusals), RateLimitEnd(refusals);
    var next := now + cfg.every;
    if vetoed.Some? then RetryPlan(false, now, None, Some(vetoed.value.peer))
    else if AllDenied(refusals) then RetryPlan(true, now, None, None)
    else if unlock.Some? && unlock.value > now then RetryPlan(false, unlock.value + cfg.margin, unlock, None)
    else if limited.Some? then RetryPlan(false, limited.value + cfg.margin, None, None)
    else if refusals != [] then
      if next > held.unlockAt + ANSWERED_GIVE_UP_MS then RetryPlan(true, now, None, None) else RetryPlan(false, next, None, None)
    else if next > held.unlockAt + cfg.DelayOr24h(held.kind) then RetryPlan(true, now, None, None)
    else RetryPlan(false, next, None, None)
  }

  /** A node postponed the event: it named a future unlock time or the end of a rate limit. */
  predicate Postpones(refusals: seq<PeerRefusal>, now: int) {
    (ReportedUnlock(refusals).Some? && ReportedUnlock(refusals).value > now) || RateLimitEnd(refusals).Some?
  }

  /** A plan that vetoes the row; a veto without the name of its peer is treated like any failed attempt. */
  predicate NamesVeto(plan: RetryPlan) {
    plan.vetoedBy.Some? && plan.vetoedBy.value != ""
  }

  /** The row will be asked about again, and not for one retry interval: postponed, or a veto without a name. */
  predicate PutOff(refusals: seq<PeerRefusal>, now: int) {
    var vetoed := FirstVetoed(refusals);
    if vetoed.Some? then vetoed.value.peer == "" else Postpones(refusals, now)
  }

  function PlannedUnlock(held: Row, plan: RetryPlan): int {
    if plan.unlockAt.Some? then plan.unlockAt.value else held.unlockAt
  }

  /** The columns the scheduler writes after a failed attempt that was no named veto. */
  function RetryFields(held: Row, plan: RetryPlan): Fields {
    NoFields.(attempts := Some(held.attempts + 1),
              status := if plan.fail then Some(Status.Failed) else None,
              nextAttemptAt := if plan.fail then None else Some(plan.nextAttemptAt),
              unlockAt := plan.unlockAt)
  }

  /**
   * For an event that was due, a plan never brings the unlock time forward, and
   * it keeps the next attempt at or after unlock + margin unless a rate limit
   * ended before the unlock. Then the unlock plus margin has passed already.
   */
  lemma PlanKeepsUnlock(cfg: Config, held: Row, refusals: seq<PeerRefusal>, now: int)
    requires cfg.Valid() && held.unlockAt + cfg.margin <= now
    ensures var plan := PlanRetry(cfg, held, refusals, now);
            PlannedUnlock(held, plan) >= held.unlockAt &&
            (plan.unlockAt.Some? ==> plan.unlockAt.value > now && !plan.fail && plan.nextAttemptAt == plan.unlockAt.value + cfg.margin)
    ensures var plan := PlanRetry(cfg, held, refusals, now);
            !plan.fail && plan.vetoedBy.None? ==>
              (plan.nextAttemptAt >= PlannedUnlock(held, plan) + cfg.margin <==>
               ((ReportedUnlock(refusals).Some? && ReportedUnlock(refusals).value > now) ||
                RateLimitEnd(refusals).None? || RateLimitEnd(refusals).value >= held.unlockAt))
  {
  }

  // --------------------------------------------------- the plan, from the answers alone

  /** t is the largest unlock time among the refusals that say locked or held. */
  ghost predicate LargestUnlock(refusals: seq<PeerRefusal>, t: int) {
    && (exists r :: r in refusals && (r.code == Locked || r.code == Code.Held) && r.unlockAt == Some(t))
    && (forall r :: r in refusals && (r.code == Locked || r.code == Code.Held) && r.unlockAt.Some? ==> r.unlockAt.value <= t)
  }

  /** t is the largest time among the refusals that say rate limited. */
  ghost predicate LargestSlot(refusals: seq<PeerRefusal>, t: int) {
    && (exists r :: r in refusals && r.code == RateLimited && r.retryAt == Some(t))
    && (forall r :: r in refusals && r.code == RateLimited && r.retryAt.Some? ==> r.retryAt.value <= t)
  }

  /** Some node that holds the event says it unlocks after now. */
  ghost predicate StillLocked(refusals: seq<PeerRefusal>, now: int) {
    exists r :: r in refusals && (r.code == Locked || r.code == Code.Held) && r.unlockAt.Some? && r.unlockAt.value > now
  }

  ghost predicate Limited(refusals: seq<PeerRefusal>) {
    exists r :: r in refusals && r.code == RateLimited && r.retryAt.Some?
  }

  ghost predicate FirstVeto(refusals: seq<PeerRefusal>, peer: string) {
    exists k :: 0 <= k < |refusals| && refusals[k].code == Code.Vetoed && refusals[k].peer == peer
      && forall j :: 0 <= j < k ==> refusals[j].code != Code.Vetoed
  }

  ghost predicate NoVeto(refusals: seq<PeerRefusal>) {
    forall r :: r in refusals ==> r.code != Code.Vetoed
  }

  ghost predicate EveryoneDenied(refusals: seq<PeerRefusal>) {
    refusals != [] && forall r :: r in refusals ==> r.code == Denied
  }

  lemma UnlockIsLargest(refusals: seq<PeerRefusal>)
    ensures ReportedUnlock(refusals).Some? ==> LargestUnlock(refusals, ReportedUnlock(refusals).value)
    ensures ReportedUnlock(refusals).None? ==>
              forall r :: r in refusals && (r.code == Locked || r.code == Code.Held) ==> r.unlockAt.None?
  {
    var u := ReportedUnlock(refusals);
    if u.Some? {
      var x :| x in refusals && UnlockOf(x) == u;
      assert x.unlockAt == u;
      forall r | r in refusals && (r.code == Locked || r.code == Code.Held) && r.unlockAt.Some? ensures r.unlockAt.value <= u.value {
        assert UnlockOf(r) == r.unlockAt;
      }
    } else {
      forall r | r in refusals && (r.code == Locked || r.code == Code.Held) ensures r.unlockAt.None? {
        assert UnlockOf(r).None?;
      }
    }
  }

  lemma SlotIsLargest(refusals: seq<PeerRefusal>)
    ensures RateLimitEnd(refusals).Some? ==> LargestSlot(refusals, RateLimitEnd(refusals).value)
    ensures RateLimitEnd(refusals).None? <==> !Limited(refusals)
  {
    var u := RateLimitEnd(refusals);
    if u.Some? {
      var x :| x in refusals && SlotOf(x) == u;
      assert x.retryAt == u;
      forall r | r in refusals && r.code == RateLimited && r.retryAt.Some? ensures r.retryAt.value <= u.value {
        assert SlotOf(r) == r.retryAt;
      }
    } else {
      forall r | r in refusals && r.code == RateLimited ensures r.retryAt.None? {
        assert SlotOf(r).None?;
      }
    }
  }

  lemma {:induction false} FirstVetoIs(refusals: seq<PeerRefusal>)
    ensures FirstVetoed(refusals).Some? ==> FirstVeto(refusals, FirstVetoed(refusals).value.peer)
  {
    if refusals != [] && refusals[0].code != Code.Vetoed && FirstVetoed(refusals).Some? {
      FirstVetoIs(refusals[1..]);
      var peer := FirstVetoed(refusals).value.peer;
      var tail := refusals[1..];
      var k :| 0 <= k < |tail| && tail[k].code == Code.Vetoed && tail[k].peer == peer
        && forall j :: 0 <= j < k ==> tail[j].code != Code.Vetoed;
      assert refusals[k + 1] == tail[k];
      forall j | 0 <= j < k + 1 ensures refusals[j].code != Code.Vetoed {
        assert j > 0 ==> refusals[j] == tail[j - 1];
      }
    } else if refusals != [] && refusals[0].code == Code.Vetoed {
      assert refusals[0].code == Code.Vetoed;
    }
  }

  /**
   * A veto is taken from the first node that reports one, and decides before
   * anything else; the event is given up for good when every node denied it.
   */
  lemma VetoAndDenialDecide(cfg: Config, held: Row, refusals: seq<PeerRefusal>, now: int)
    ensures var plan := PlanRetry(cfg, held, refusals, now);
            && (plan.vetoedBy.None? <==> NoVeto(refusals))
            && (plan.vetoedBy.Some? ==> FirstVeto(refusals, plan.vetoedBy.value) && !plan.fail && plan.unlockAt.None?)
            && (NoVeto(refusals) && EveryoneDenied(refusals) ==> plan.fail && plan.unlockAt.None?)
  {
    FirstVetoIs(refusals);
    assert forall r :: r in refusals ==> (r.code == Denied <==> r.code.Denied?);
  }

  /**
   * Otherwise a node that still holds the event decides: the plan follows the
   * largest unlock time reported, if that lies ahead, and asks a margin after it.
   */
  lemma PlanFollowsUnlock(cfg: Config, held: Row, refusals: seq<PeerRefusal>, now: int)
    requires NoVeto(refusals) && !EveryoneDenied(refusals) && StillLocked(refusals, now)
    ensures var plan := PlanRetry(cfg, held, refusals, now);
            && !plan.fail && plan.vetoedBy.None? && plan.unlockAt.Some? && LargestUnlock(refusals, plan.unlockAt.value)
            && plan.unlockAt.value > now && plan.nextAttemptAt == plan.unlockAt.value + cfg.margin
  {
    UnlockIsLargest(refusals);
  }

  /** Without such a time the latest rate limit decides, wherever it lies. */
  lemma PlanFollowsRateLimit(cfg: Config, held: Row, refusals: seq<PeerRefusal>, now: int)
    requires NoVeto(refusals) && !EveryoneDenied(refusals) && !StillLocked(refusals, now) && Limited(refusals)
    ensures var plan := PlanRetry(cfg, held, refusals, now);
            && !plan.fail && plan.vetoedBy.None? && plan.unlockAt.None?
            && LargestSlot(refusals, plan.nextAttemptAt - cfg.margin)
  {
    UnlockIsLargest(refusals);
    SlotIsLargest(refusals);
  }

  /**
   * With neither, one interval later, until that is too late: 7 days past the
   * unlock while nodes answer, one delay (24 hours for a kind without one) past it
   * when none does. Then the event is given up.
   */
  lemma PlanWaitsOneInterval(cfg: Config, held: Row, refusals: seq<PeerRefusal>, now: int)
    requires NoVeto(refusals) && !EveryoneDenied(refusals) && !StillLocked(refusals, now) && !Limited(refusals)
    ensures var plan := PlanRetry(cfg, held, refusals, now);
            var patience := if refusals != [] then 604_800_000 else if held.kind in cfg.delays then cfg.delays[held.kind] else 86_400_000;
            && plan.vetoedBy.None? && plan.unlockAt.None?
            && (plan.fail <==> now + cfg.every > held.unlockAt + patience)
            && (!plan.fail ==> plan.nextAttemptAt == now + cfg.every)
  {
    UnlockIsLargest(refusals);
    SlotIsLargest(refusals);
  }

  /** The longest an event that nobody postpones is asked about, counted from its unlock time. */
  function Patience(cfg: Config, kind: int): int {
    Max(cfg.DelayOr24h(kind), ANSWERED_GIVE_UP_MS)
  }

  /** Without a postponement the plan waits exactly one retry interval and stays within the patience, or gives up. */
  lemma PlanWithinPatience(cfg: Config, held: Row, refusals: seq<PeerRefusal>, now: int)
    requires !Postpones(refusals, now)
    ensures var plan := PlanRetry(cfg, held, refusals, now);
            plan.vetoedBy.None? && !plan.fail ==>
              plan.nextAttemptAt == now + cfg.every <= held.unlockAt + Patience(cfg, held.kind) && plan.unlockAt.None?
  {
  }
}
