/** What one submission of a delay-gated event leaves in the store (signOrHold in src/cinderella/held-events.ts). */
module HeldSubmission {
  import opened Basics
  import opened HeldConfig
  import opened HeldStore
  import opened HeldPlan
  import opened HeldLifecycle

  /** A node signed, or every node that answered refused for good: the event is not held. */
  predicate Settled(attempts: seq<Attempt>) {
    FirstSigned(attempts).Some? || AllDenied(AllRefusals(attempts))
  }

  ghost predicate ReplaceableKind(kind: int) {
    kind == 0 || kind == 3 || 10_000 <= kind <= 19_999
  }

  /** The row of an event no node signed: its status, unlock time and first attempt, from the nodes' answers. */
  ghost predicate StoredFrom(cfg: Config, t: Table, event: UnsignedEvent, now: int, refusals: seq<PeerRefusal>, r: Row) {
    && r.event == event && r.pubkey == event.pubkey && r.kind == event.kind && r.eventId == EventHash(event)
    && r.signed.None? && r.publishResults.None? && r.attempts == 0 && r.nextAttemptAt == r.unlockAt + cfg.margin
    && (if ReplaceableKind(event.kind) && NewerWaiting(t, event) then r.status == Superseded
        else if NoVeto(refusals) then r.status == Status.Held && r.vetoedBy.None?
        else r.status == Status.Vetoed && r.vetoedBy.Some? && FirstVeto(refusals, r.vetoedBy.value))
    && UnlockFrom(cfg, event.kind, refusals, now, r.unlockAt)
  }

  /** The largest unlock time the nodes reported; without one, the kind's delay from now. */
  ghost predicate UnlockFrom(cfg: Config, kind: int, refusals: seq<PeerRefusal>, now: int, unlockAt: int) {
    if exists x :: x in refusals && (x.code == Locked || x.code == Code.Held) && x.unlockAt.Some?
    then LargestUnlock(refusals, unlockAt)
    else unlockAt == now + if kind in cfg.delays then cfg.delays[kind] else 86_400_000
  }

  /** The rows that wait for the same slot make way for the event, unless one of them is newer; no other row changes. */
  ghost predicate MadeWay(t: Table, u: Table, event: UnsignedEvent) {
    |t| <= |u| && forall i :: 0 <= i < |t| ==>
      u[i] == if ReplaceableKind(event.kind) && !NewerWaiting(t, event) && Competes(t[i], event) then t[i].(status := Superseded) else t[i]
  }

  /**
   * An event the store does not know: nothing is stored when a node signed it or
   * every refusal denies it; otherwise exactly one row is added, for this event,
   * due a margin after the latest unlock time any node reported, or after our own
   * guess; vetoed at once when a node said so, unless a newer event of its slot
   * makes it superseded. Otherwise it supersedes what waits for its slot.
   */
  lemma NewEventIsHeldUnlessSettled(cfg: Config, t: Table, event: UnsignedEvent, now: int, attempts: seq<Attempt>)
    requires forall i :: 0 <= i < |t| ==> t[i].eventId != EventHash(event)
    ensures var u, refusals := ApplyAll(t, SubmitOps(cfg, event, now, attempts)), AllRefusals(attempts);
            if (exists a :: a in attempts && a.Fulfilled?) || EveryoneDenied(refusals) then u == t
            else |u| == |t| + 1 && StoredFrom(cfg, t, event, now, refusals, u[|t|]) && MadeWay(t, u, event)
  {
    var refusals := AllRefusals(attempts);
    SettledIs(attempts);
    if !Settled(attempts) {
      HeldFromAnswers(cfg, t, event, now, refusals);
    }
  }

  lemma HeldFromAnswers(cfg: Config, t: Table, event: UnsignedEvent, now: int, refusals: seq<PeerRefusal>)
    requires forall i :: 0 <= i < |t| ==> t[i].eventId != EventHash(event)
    ensures var u := ApplyAll(t, HoldOps(cfg, event, now, refusals));
            |u| == |t| + 1 && StoredFrom(cfg, t, event, now, refusals, u[|t|]) && MadeWay(t, u, event)
  {
    var unlockAt := FirstUnlock(cfg, event.kind, refusals, now);
    var u := Hold(t, event, EventHash(event), unlockAt, unlockAt + cfg.margin, ReplaceableKind(event.kind));
    HoldOpsAre(cfg, t, event, now, refusals, unlockAt);
    HoldIs(t, event, EventHash(event), unlockAt, unlockAt + cfg.margin, ReplaceableKind(event.kind));
    UnlockIs(cfg, event.kind, refusals, now);
    StoredThen(cfg, t, u, ApplyAll(t, HoldOps(cfg, event, now, refusals)), event, now, refusals, unlockAt);
  }

  lemma StoredThen(cfg: Config, t: Table, u: Table, w: Table, event: UnsignedEvent, now: int, refusals: seq<PeerRefusal>, unlockAt: int)
    requires forall i :: 0 <= i < |t| ==> t[i].eventId != EventHash(event)
    requires HeldAs(t, u, event, EventHash(event), unlockAt, unlockAt + cfg.margin, ReplaceableKind(event.kind))
    requires UnlockFrom(cfg, event.kind, refusals, now, unlockAt)
    requires var vetoed := FirstVetoed(refusals); w == if vetoed.None? then u else Veto(u, EventHash(event), vetoed.value.peer)
    ensures |w| == |t| + 1 && StoredFrom(cfg, t, event, now, refusals, w[|t|]) && MadeWay(t, w, event)
  {
    FirstVetoIs(refusals);
    if FirstVetoed(refusals).None? {
      StoredUnvetoed(cfg, t, u, event, now, refusals, unlockAt);
    } else {
      StoredVetoed(cfg, t, u, event, now, refusals, unlockAt, FirstVetoed(refusals).value.peer);
    }
  }

  lemma HoldOpsAre(cfg: Config, t: Table, event: UnsignedEvent, now: int, refusals: seq<PeerRefusal>, unlockAt: int)
    requires unlockAt == FirstUnlock(cfg, event.kind, refusals, now)
    ensures var u := Hold(t, event, EventHash(event), unlockAt, unlockAt + cfg.margin, ReplaceableKind(event.kind));
            var vetoed := FirstVetoed(refusals);
            ApplyAll(t, HoldOps(cfg, event, now, refusals))
            == if vetoed.None? then u else Veto(u, EventHash(event), vetoed.value.peer)
  {
    var hold := HoldOp(cfg, event, unlockAt);
    ApplyOne(t, hold);
    if FirstVetoed(refusals).Some? {
      ApplyTwo(t, hold, OpVeto(EventHash(event), FirstVetoed(refusals).value.peer));
    }
  }

  lemma StoredUnvetoed(cfg: Config, t: Table, u: Table, event: UnsignedEvent, now: int, refusals: seq<PeerRefusal>, unlockAt: int)
    requires HeldAs(t, u, event, EventHash(event), unlockAt, unlockAt + cfg.margin, ReplaceableKind(event.kind))
    requires UnlockFrom(cfg, event.kind, refusals, now, unlockAt) && NoVeto(refusals)
    ensures StoredFrom(cfg, t, event, now, refusals, u[|t|]) && MadeWay(t, u, event)
  {
  }

  lemma StoredVetoed(cfg: Config, t: Table, u: Table, event: UnsignedEvent, now: int, refusals: seq<PeerRefusal>, unlockAt: int,
                     reporter: string)
    requires forall i :: 0 <= i < |t| ==> t[i].eventId != EventHash(event)
    requires HeldAs(t, u, event, EventHash(event), unlockAt, unlockAt + cfg.margin, ReplaceableKind(event.kind))
    requires UnlockFrom(cfg, event.kind, refusals, now, unlockAt) && FirstVeto(refusals, reporter)
    ensures var v := Veto(u, EventHash(event), reporter);
            |v| == |u| && StoredFrom(cfg, t, event, now, refusals, v[|t|]) && MadeWay(t, v, event)
  {
    VetoOfNew(t, u, EventHash(event), reporter);
    assert !NoVeto(refusals);
  }

  /** Of a table to which a row was added, a veto of its event changes only that row. */
  lemma VetoOfNew(t: Table, u: Table, id: EventId, reporter: string)
    requires |u| == |t| + 1 && u[|t|].eventId == id
    requires forall i :: 0 <= i < |t| ==> u[i].eventId != id
    ensures Veto(u, id, reporter)
            == u[|t| := if u[|t|].status.Held? then u[|t|].(status := Status.Vetoed, vetoedBy := Some(reporter)) else u[|t|]]
  {
  }

  lemma SettledIs(attempts: seq<Attempt>)
    ensures Settled(attempts) <==> (exists a :: a in attempts && a.Fulfilled?) || EveryoneDenied(AllRefusals(attempts))
  {
    var refusals := AllRefusals(attempts);
    assert forall r :: r in refusals ==> (r.code == Denied <==> r.code.Denied?);
    if FirstSigned(attempts).Some? {
      assert Fulfilled(FirstSigned(attempts).value) in attempts;
    }
  }

  lemma UnlockIs(cfg: Config, kind: int, refusals: seq<PeerRefusal>, now: int)
    ensures UnlockFrom(cfg, kind, refusals, now, FirstUnlock(cfg, kind, refusals, now))
  {
    UnlockIsLargest(refusals);
  }

  /**
   * An event already stored and no longer held: submitting it again leaves the
   * store as it was, whatever the nodes say. A cancelled or failed event is shown
   * to the nodes again but not held again.
   */
  lemma ResubmittedIsNotHeldAgain(cfg: Config, t: Table, event: UnsignedEvent, now: int, attempts: seq<Attempt>)
    requires UniqueIds(t) && Find(t, EventHash(event)).Some? && !t[Find(t, EventHash(event)).value].status.Held?
    ensures ApplyAll(t, SubmitOps(cfg, event, now, attempts)) == t
  {
    var id, refusals := EventHash(event), AllRefusals(attempts);
    var i := Find(t, id).value;
    forall j | 0 <= j < |t| && t[j].eventId == id ensures j == i {
      assert t[Min(i, j)].eventId == t[Max(i, j)].eventId;
    }
    if !Settled(attempts) {
      var hold := HoldOp(cfg, event, FirstUnlock(cfg, event.kind, refusals, now));
      ApplyOne(t, hold);
      if FirstVetoed(refusals).Some? {
        var reporter := FirstVetoed(refusals).value.peer;
        ApplyTwo(t, hold, OpVeto(id, reporter));
        assert Veto(t, id, reporter) == t;
      }
    }
  }
}
