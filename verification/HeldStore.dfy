/**
 * The held_events table (src/db/held-events.ts). Rows are only ever inserted
 * and updated, so a row's random id is modelled by its insertion index.
 */
module HeldStore {
  import opened Basics
  import opened HeldConfig

  datatype Status = Held | Signed | Published | Failed | Cancelled | Superseded | Vetoed

  datatype UnsignedEvent = UnsignedEvent(pubkey: string, createdAt: int, kind: int, tags: seq<seq<string>>, content: string)

  /** An event id: a deterministic, injective digest of the event (modelled symbolically). */
  datatype EventId = EventHash(preimage: UnsignedEvent)

  datatype NostrEvent = NostrEvent(event: UnsignedEvent, id: EventId, sig: string)

  /** The id names the event it is sent with. */
  predicate Sealed(e: NostrEvent) {
    e.id == EventHash(e.event)
  }

  datatype Row = Row(
    pubkey: string, eventId: EventId, kind: int, event: UnsignedEvent, status: Status,
    unlockAt: int, nextAttemptAt: int, attempts: int, signed: Option<NostrEvent>,
    publishResults: Option<map<string, string>>, vetoedBy: Option<string>)
  {
    predicate Live() { status.Held? || status.Signed? }

    /** Live and competing for the one slot a replaceable kind has. */
    predicate InSlot(pubkey: string, kind: int) {
      this.pubkey == pubkey && this.kind == kind && Live()
    }
  }

  type RowId = nat
  type Table = seq<Row>

  /** The optional columns of updateHeld; None leaves the column as it is. */
  datatype Fields = Fields(
    status: Option<Status>, unlockAt: Option<int>, nextAttemptAt: Option<int>, attempts: Option<int>,
    signed: Option<Option<NostrEvent>>, publishResults: Option<map<string, string>>)

  const NoFields := Fields(None, None, None, None, None, None)

  // ------------------------------------------------------------------ the statements

  function UpdateWhere(t: Table, p: Row -> bool, f: Row -> Row): (r: Table)
    ensures |r| == |t|
    ensures forall i :: 0 <= i < |t| ==> r[i] == if p(t[i]) then f(t[i]) else t[i]
  {
    seq(|t|, i requires 0 <= i < |t| => if p(t[i]) then f(t[i]) else t[i])
  }

  function Find(t: Table, eventId: EventId): (r: Option<RowId>)
    ensures r.None? ==> forall i :: 0 <= i < |t| ==> t[i].eventId != eventId
    ensures r.Some? ==> r.value < |t| && t[r.value].eventId == eventId
  {
    if t == [] then None
    else if Last(t).eventId == eventId then Some(|t| - 1)
    else Find(t[..|t| - 1], eventId)
  }

  function SetFields(r: Row, f: Fields): Row {
    r.(status := if f.status.Some? then f.status.value else r.status,
       unlockAt := if f.unlockAt.Some? then f.unlockAt.value else r.unlockAt,
       nextAttemptAt := if f.nextAttemptAt.Some? then f.nextAttemptAt.value else r.nextAttemptAt,
       attempts := if f.attempts.Some? then f.attempts.value else r.attempts,
       signed := if f.signed.Some? then f.signed.value else r.signed,
       publishResults := if f.publishResults.Some? then f.publishResults else r.publishResults)
  }

  predicate NewerHeld(t: Table, event: UnsignedEvent) {
    exists i :: 0 <= i < |t| && t[i].InSlot(event.pubkey, event.kind) && t[i].event.createdAt > event.createdAt
  }

  function NewRow(event: UnsignedEvent, eventId: EventId, status: Status, unlockAt: int, nextAttemptAt: int): Row {
    Row(event.pubkey, eventId, event.kind, event, status, unlockAt, nextAttemptAt, 0, None, None, None)
  }

  /** holdEvent: nothing for a known id; otherwise one more row, which competes for its slot if the kind is replaceable. */
  function Hold(t: Table, event: UnsignedEvent, eventId: EventId, unlockAt: int, nextAttemptAt: int, isReplaceable: bool): (r: Table)
    ensures Find(t, eventId).Some? ==> r == t
    ensures Find(t, eventId).None? ==> |r| == |t| + 1 && r[|t|].eventId == eventId
  {
    if Find(t, eventId).Some? then t
    else if isReplaceable && NewerHeld(t, event) then
      t + [NewRow(event, eventId, Superseded, unlockAt, nextAttemptAt)]
    else
      (if isReplaceable then UpdateWhere(t, (r: Row) => r.InSlot(event.pubkey, event.kind), (r: Row) => r.(status := Superseded)) else t)
      + [NewRow(event, eventId, Status.Held, unlockAt, nextAttemptAt)]
  }

  /** The row waits for its signature or its publication, and competes with the event for a slot. */
  ghost predicate Competes(r: Row, event: UnsignedEvent) {
    r.pubkey == event.pubkey && r.kind == event.kind && (r.status == Status.Held || r.status == Signed)
  }

  /** A newer version of the event is waiting. */
  ghost predicate NewerWaiting(t: Table, event: UnsignedEvent) {
    exists i :: 0 <= i < |t| && Competes(t[i], event) && t[i].event.createdAt > event.createdAt
  }

  /** What holding an event that is not in the table makes of it: the new row comes last, superseded or superseding. */
  ghost predicate HeldAs(t: Table, u: Table, event: UnsignedEvent, eventId: EventId, unlockAt: int, next: int, isReplaceable: bool) {
    var late := isReplaceable && NewerWaiting(t, event);
    && |u| == |t| + 1
    && u[|t|] == Row(event.pubkey, eventId, event.kind, event, if late then Superseded else Status.Held,
                     unlockAt, next, 0, None, None, None)
    && forall i :: 0 <= i < |t| ==>
         u[i] == if isReplaceable && !late && Competes(t[i], event) then t[i].(status := Superseded) else t[i]
  }

  lemma HoldIs(t: Table, event: UnsignedEvent, eventId: EventId, unlockAt: int, next: int, isReplaceable: bool)
    requires forall i :: 0 <= i < |t| ==> t[i].eventId != eventId
    ensures HeldAs(t, Hold(t, event, eventId, unlockAt, next, isReplaceable), event, eventId, unlockAt, next, isReplaceable)
  {
    assert forall r: Row :: r.InSlot(event.pubkey, event.kind) <==> Competes(r, event);
  }

  /** The row takes every column that is given and keeps the others. */
  ghost predicate Written(a: Row, b: Row, f: Fields) {
    && SameEvent(a, b) && b.vetoedBy == a.vetoedBy
    && (if f.status.Some? then b.status == f.status.value else b.status == a.status)
    && (if f.unlockAt.Some? then b.unlockAt == f.unlockAt.value else b.unlockAt == a.unlockAt)
    && (if f.nextAttemptAt.Some? then b.nextAttemptAt == f.nextAttemptAt.value else b.nextAttemptAt == a.nextAttemptAt)
    && (if f.attempts.Some? then b.attempts == f.attempts.value else b.attempts == a.attempts)
    && (if f.signed.Some? then b.signed == f.signed.value else b.signed == a.signed)
    && (if f.publishResults.Some? then b.publishResults == f.publishResults else b.publishResults == a.publishResults)
  }

  /** updateHeld skips vetoed rows. */
  function Update(t: Table, id: RowId, f: Fields): (r: Table)
    ensures |r| == |t|
    ensures forall i :: 0 <= i < |t| && i != id ==> r[i] == t[i]
  {
    if id < |t| && !t[id].status.Vetoed? then t[id := SetFields(t[id], f)] else t
  }

  /** markVetoed writes to held rows of that event and no others. */
  function Veto(t: Table, eventId: EventId, reporter: string): (r: Table)
    ensures |r| == |t| && forall i :: 0 <= i < |t| ==> SameEvent(t[i], r[i])
  {
    UpdateWhere(t, (r: Row) => r.eventId == eventId && r.status.Held?, (r: Row) => r.(status := Status.Vetoed, vetoedBy := Some(reporter)))
  }

  predicate Cancellable(t: Table, id: RowId, pubkey: string) {
    id < |t| && t[id].pubkey == pubkey && (t[id].status.Held? || t[id].status.Vetoed?)
  }

  function Cancel(t: Table, id: RowId, pubkey: string): (r: Table)
    ensures |r| == |t|
  {
    if Cancellable(t, id, pubkey) then t[id := t[id].(status := Cancelled)] else t
  }

  /** A row as dueHeld copied it; the live row may change afterwards. */
  datatype Snap = Snap(id: RowId, row: Row)

  predicate IsDue(r: Row, pubkey: string, now: int) {
    r.pubkey == pubkey && r.Live() && r.nextAttemptAt <= now
  }

  ghost predicate SortedByNext(s: seq<Snap>) {
    forall i, j :: 0 <= i < j < |s| ==> s[i].row.nextAttemptAt <= s[j].row.nextAttemptAt
  }

  ghost predicate DistinctIds(s: seq<Snap>) {
    forall i, j :: 0 <= i < j < |s| ==> s[i].id != s[j].id
  }

  function InsertByNext(s: seq<Snap>, x: Snap): seq<Snap> {
    if s == [] || x.row.nextAttemptAt < s[0].row.nextAttemptAt then [x] + s
    else [s[0]] + InsertByNext(s[1..], x)
  }

  lemma {:induction false} InsertByNextKeepsOrder(s: seq<Snap>, x: Snap)
    requires SortedByNext(s) && DistinctIds(s) && forall y :: y in s ==> y.id != x.id
    ensures forall y :: y in InsertByNext(s, x) <==> y in s || y == x
    ensures SortedByNext(InsertByNext(s, x)) && DistinctIds(InsertByNext(s, x))
  {
    if s == [] || x.row.nextAttemptAt < s[0].row.nextAttemptAt {
    } else {
      var tail := s[1..];
      assert s == [s[0]] + tail;
      InsertByNextKeepsOrder(tail, x);
      var r := InsertByNext(tail, x);
      forall i | 0 <= i < |r| ensures s[0].row.nextAttemptAt <= r[i].row.nextAttemptAt && s[0].id != r[i].id {
        assert r[i] in r;
        if r[i] != x {
          var k :| 0 <= k < |tail| && tail[k] == r[i];
          assert s[k + 1] == r[i];
        } else {
          assert s[0] in s;
        }
      }
    }
  }

  /** dueHeld restricted to the first n rows, ordered by next_attempt_at. */
  function DueAmong(t: Table, pubkey: string, now: int, n: nat): (s: seq<Snap>)
    requires n <= |t|
    ensures SortedByNext(s) && DistinctIds(s)
    ensures forall x :: x in s <==> x.id < n && x.row == t[x.id] && IsDue(x.row, pubkey, now)
  {
    if n == 0 then []
    else
      var s := DueAmong(t, pubkey, now, n - 1);
      if IsDue(t[n - 1], pubkey, now) then
        InsertByNextKeepsOrder(s, Snap(n - 1, t[n - 1]));
        InsertByNext(s, Snap(n - 1, t[n - 1]))
      else s
  }

  function DueHeld(t: Table, pubkey: string, now: int): (s: seq<Snap>)
    ensures SortedByNext(s) && DistinctIds(s)
    ensures forall x :: x in s <==> x.id < |t| && x.row == t[x.id] && x.row.pubkey == pubkey
                                    && (x.row.status == Status.Held || x.row.status == Signed) && x.row.nextAttemptAt <= now
  {
    DueAmong(t, pubkey, now, |t|)
  }

  // ---------------------------------------------------------------- runs of statements

  datatype StoreOp =
    | OpHold(event: UnsignedEvent, eventId: EventId, unlockAt: int, nextAttemptAt: int, isReplaceable: bool)
    | OpUpdate(id: RowId, fields: Fields)
    | OpVeto(vetoed: EventId, reporter: string)
    | OpCancel(id: RowId, pubkey: string)

  function Apply(t: Table, op: StoreOp): Table {
    match op
    case OpHold(event, eventId, unlockAt, nextAttemptAt, isReplaceable) => Hold(t, event, eventId, unlockAt, nextAttemptAt, isReplaceable)
    case OpUpdate(id, fields) => Update(t, id, fields)
    case OpVeto(eventId, reporter) => Veto(t, eventId, reporter)
    case OpCancel(id, pubkey) => Cancel(t, id, pubkey)
  }

  function ApplyAll(t: Table, ops: seq<StoreOp>): Table {
    if ops == [] then t else Apply(ApplyAll(t, ops[..|ops| - 1]), Last(ops))
  }

  /** What no statement may change about a row. */
  predicate SameEvent(a: Row, b: Row) {
    a.pubkey == b.pubkey && a.eventId == b.eventId && a.kind == b.kind && a.event == b.event
  }

  /** The table only grows, and what a row stands for never changes. */
  ghost predicate Grows(t: Table, u: Table) {
    |t| <= |u| && forall i :: 0 <= i < |t| ==> SameEvent(t[i], u[i])
  }

  lemma {:induction false} RunsKeepEvents(t: Table, ops: seq<StoreOp>)
    ensures Grows(t, ApplyAll(t, ops))
  {
    if ops != [] {
      RunsKeepEvents(t, ops[..|ops| - 1]);
    }
  }

  ghost predicate UniqueIds(t: Table) {
    forall i, j :: 0 <= i < j < |t| ==> t[i].eventId != t[j].eventId
  }

  lemma {:induction false} OneRowPerEvent(t: Table, ops: seq<StoreOp>)
    requires UniqueIds(t)
    ensures UniqueIds(ApplyAll(t, ops))
  {
    if ops != [] {
      OneRowPerEvent(t, ops[..|ops| - 1]);
      RunsKeepEvents(t, ops[..|ops| - 1]);
      var u, op := ApplyAll(t, ops[..|ops| - 1]), Last(ops);
      RunsKeepEvents(u, [op]);
      assert ApplyAll(u, [op]) == Apply(u, op) by { assert [op][..0] == []; }
    }
  }

  /** Whatever updates are thrown at it, a vetoed row leaves that state only by a cancel for its own pubkey. */
  lemma {:induction false} VetoSurvivesUpdates(t: Table, ops: seq<StoreOp>, id: RowId)
    requires id < |t| && t[id].status.Vetoed?
    requires OpCancel(id, t[id].pubkey) !in ops
    ensures id < |ApplyAll(t, ops)| && ApplyAll(t, ops)[id] == t[id]
  {
    if ops != [] {
      assert forall op :: op in ops[..|ops| - 1] ==> op in ops;
      VetoSurvivesUpdates(t, ops[..|ops| - 1], id);
      assert Last(ops) in ops;
    }
  }

  // ------------------------------------------------------------- replaceable kinds

  /** At most one live row per pubkey and replaceable kind. */
  ghost predicate OneLivePerSlot(t: Table) {
    forall i, j :: 0 <= i < j < |t| && Waiting(t[i]) && Waiting(t[j]) && t[i].kind == t[j].kind && IsReplaceable(t[i].kind)
      ==> t[i].pubkey != t[j].pubkey
  }

  /** Waiting for a signature or for a relay to take it. */
  ghost predicate Waiting(r: Row) {
    r.status == Status.Held || r.status == Signed
  }

  /** The op puts a row that is not live back to held or signed. */
  predicate Revives(t: Table, op: StoreOp) {
    op.OpUpdate? && op.id < |t| && !t[op.id].status.Vetoed? && !t[op.id].Live()
    && op.fields.status.Some? && (op.fields.status.value.Held? || op.fields.status.value.Signed?)
  }

  ghost predicate SlotTaken(t: Table, id: RowId)
    requires id < |t|
  {
    IsReplaceable(t[id].kind) && exists j :: 0 <= j < |t| && j != id && t[j].InSlot(t[id].pubkey, t[id].kind)
  }

  /** holdEvent was called with the row's kind classified the way the caller classifies it. */
  predicate Classified(op: StoreOp) {
    op.OpHold? ==> op.isReplaceable == IsReplaceable(op.event.kind)
  }

  /** A revived row joins the one that has its slot. */
  lemma RevivalBreaksSlot(t: Table, op: StoreOp)
    requires Revives(t, op) && SlotTaken(t, op.id)
    ensures !OneLivePerSlot(Apply(t, op))
  {
    var u := Apply(t, op);
    var j :| 0 <= j < |t| && j != op.id && t[j].InSlot(t[op.id].pubkey, t[op.id].kind);
    assert u[j] == t[j] && Waiting(u[op.id]);
    var a, b := Min(j, op.id), Max(j, op.id);
    assert Waiting(u[a]) && Waiting(u[b]) && u[a].pubkey == u[b].pubkey && u[a].kind == u[b].kind;
  }

  lemma HoldKeepsSlot(t: Table, op: StoreOp)
    requires OneLivePerSlot(t) && op.OpHold? && Classified(op)
    ensures OneLivePerSlot(Apply(t, op))
  {
    var u := Apply(t, op);
    forall i | 0 <= i < |t| && Waiting(u[i]) ensures u[i] == t[i] {
    }
    if |u| == |t| + 1 && Waiting(u[|t|]) && op.isReplaceable {
      assert forall i :: 0 <= i < |t| ==> !u[i].InSlot(op.event.pubkey, op.event.kind);
    }
  }

  lemma UpdateKeepsSlot(t: Table, op: StoreOp)
    requires OneLivePerSlot(t) && op.OpUpdate? && !(Revives(t, op) && SlotTaken(t, op.id))
    ensures OneLivePerSlot(Apply(t, op))
  {
    var u := Apply(t, op);
    forall i, j | 0 <= i < j < |u| && Waiting(u[i]) && Waiting(u[j]) && u[i].kind == u[j].kind && IsReplaceable(u[i].kind)
      ensures u[i].pubkey != u[j].pubkey
    {
      if i == op.id { assert t[j] == u[j]; } else if j == op.id { assert t[i] == u[i]; }
    }
  }

  /**
   * One step: uniqueness of the live row breaks exactly when an update revives
   * a row whose slot another live row has taken meanwhile.
   */
  lemma SlotBreaksOnlyByRevival(t: Table, op: StoreOp)
    requires OneLivePerSlot(t) && Classified(op)
    ensures OneLivePerSlot(Apply(t, op)) <==> !(Revives(t, op) && SlotTaken(t, op.id))
  {
    if Revives(t, op) && SlotTaken(t, op.id) {
      RevivalBreaksSlot(t, op);
    } else if op.OpHold? {
      HoldKeepsSlot(t, op);
    } else if op.OpUpdate? {
      UpdateKeepsSlot(t, op);
    } else {
      var u := Apply(t, op);
      assert forall i :: 0 <= i < |t| && Waiting(u[i]) ==> u[i] == t[i];
    }
  }

  ghost predicate NeverRevives(t: Table, ops: seq<StoreOp>) {
    forall n :: 0 <= n < |ops| ==> !Revives(ApplyAll(t, ops[..n]), ops[n])
  }

  lemma {:induction false} OneLivePerSlotOverRuns(t: Table, ops: seq<StoreOp>)
    requires OneLivePerSlot(t) && NeverRevives(t, ops)
    requires forall op :: op in ops ==> Classified(op)
    ensures OneLivePerSlot(ApplyAll(t, ops))
  {
    if ops != [] {
      var front := ops[..|ops| - 1];
      forall n | 0 <= n < |front| ensures !Revives(ApplyAll(t, front[..n]), front[n]) {
        assert front[..n] == ops[..n];
      }
      assert forall op :: op in front ==> op in ops;
      OneLivePerSlotOverRuns(t, front);
      assert Last(ops) in ops;
      SlotBreaksOnlyByRevival(ApplyAll(t, front), Last(ops));
    }
  }

  /**
   * When holdEvent makes row i superseded (or stores the new row as such), a
   * live row of the same slot is left whose event is at least as new; a row of
   * a kind that is not replaceable is never superseded by it. On equal
   * created_at the row submitted later is the one left live.
   */
  lemma SupersededByAsNewAnEvent(t: Table, event: UnsignedEvent, eventId: EventId, unlockAt: int, next: int, isReplaceable: bool, i: RowId)
    requires forall j :: 0 <= j < |t| ==> t[j].kind == t[j].event.kind
    requires i < |Hold(t, event, eventId, unlockAt, next, isReplaceable)|
    requires Hold(t, event, eventId, unlockAt, next, isReplaceable)[i].status.Superseded?
    requires i < |t| ==> !t[i].status.Superseded?
    ensures isReplaceable
    ensures var u := Hold(t, event, eventId, unlockAt, next, isReplaceable);
            u[i].kind == event.kind &&
            exists j :: 0 <= j < |u| && j != i && u[j].InSlot(u[i].pubkey, u[i].kind) && u[j].event.createdAt >= u[i].event.createdAt
              && (u[j].event.createdAt == u[i].event.createdAt ==> i < j)
  {
    var u := Hold(t, event, eventId, unlockAt, next, isReplaceable);
    if i == |t| {
      var j :| 0 <= j < |t| && t[j].InSlot(event.pubkey, event.kind) && t[j].event.createdAt > event.createdAt;
      assert u[j] == t[j];
    } else {
      assert t[i].InSlot(event.pubkey, event.kind) && u[|t|].InSlot(u[i].pubkey, u[i].kind);
    }
  }

  // --------------------------------------------------------------- the table as an object

  class HeldEvents {
    var rows: Table

    constructor ()
      ensures rows == []
    {
      rows := [];
    }

    method GetHeldByEventId(eventId: EventId) returns (r: Option<Row>)
      ensures r.None? <==> forall i :: 0 <= i < |rows| ==> rows[i].eventId != eventId
      ensures r.Some? ==> r.value in rows && r.value.eventId == eventId
    {
      var at := Find(rows, eventId);
      r := if at.Some? then Some(rows[at.value]) else None;
    }

    method HoldEvent(event: UnsignedEvent, eventId: EventId, unlockAt: int, nextAttemptAt: int, isReplaceable: bool) returns (r: Snap)
      modifies this
      ensures rows == Hold(old(rows), event, eventId, unlockAt, nextAttemptAt, isReplaceable)
      ensures if exists i :: 0 <= i < |old(rows)| && old(rows)[i].eventId == eventId then rows == old(rows)
              else HeldAs(old(rows), rows, event, eventId, unlockAt, nextAttemptAt, isReplaceable)
      ensures r.id < |rows| && r.row == rows[r.id] && r.row.eventId == eventId
    {
      var existing := Find(rows, eventId);
      if existing.Some? {
        return Snap(existing.value, rows[existing.value]);
      }
      HoldIs(rows, event, eventId, unlockAt, nextAttemptAt, isReplaceable);
      var status := Status.Held;
      if isReplaceable {
        if NewerHeld(rows, event) {
          status := Superseded;
        } else {
          rows := UpdateWhere(rows, (r: Row) => r.InSlot(event.pubkey, event.kind), (r: Row) => r.(status := Superseded));
        }
      }
      r := Snap(|rows|, NewRow(event, eventId, status, unlockAt, nextAttemptAt));
      rows := rows + [r.row];
    }

    method UpdateHeld(id: RowId, fields: Fields)
      modifies this
      ensures rows == Update(old(rows), id, fields)
      ensures |rows| == |old(rows)| && forall i :: 0 <= i < |rows| ==>
                if i == id && old(rows)[i].status != Status.Vetoed then Written(old(rows)[i], rows[i], fields) else rows[i] == old(rows)[i]
    {
      if id < |rows| && !rows[id].status.Vetoed? {
        rows := rows[id := SetFields(rows[id], fields)];
      }
    }

    method MarkVetoed(eventId: EventId, reporter: string) returns (changed: bool)
      modifies this
      ensures rows == Veto(old(rows), eventId, reporter)
      ensures |rows| == |old(rows)| && forall i :: 0 <= i < |rows| ==>
                rows[i] == if old(rows)[i].eventId == eventId && old(rows)[i].status.Held?
                           then old(rows)[i].(status := Status.Vetoed, vetoedBy := Some(reporter)) else old(rows)[i]
      ensures changed <==> exists i :: 0 <= i < |old(rows)| && old(rows)[i].eventId == eventId && old(rows)[i].status.Held?
    {
      changed := exists i :: 0 <= i < |rows| && rows[i].eventId == eventId && rows[i].status.Held?;
      rows := Veto(rows, eventId, reporter);
    }

    method CancelHeld(id: RowId, pubkey: string) returns (changed: bool)
      modifies this
      ensures rows == Cancel(old(rows), id, pubkey)
      ensures changed <==> id < |old(rows)| && old(rows)[id].pubkey == pubkey && old(rows)[id].status in {Status.Held, Status.Vetoed}
      ensures |rows| == |old(rows)| && forall i :: 0 <= i < |rows| ==>
                rows[i] == if changed && i == id then old(rows)[i].(status := Cancelled) else old(rows)[i]
    {
      changed := Cancellable(rows, id, pubkey);
      if changed {
        rows := rows[id := rows[id].(status := Cancelled)];
      }
    }
  }
}
