/**
 * The UI event log (src/db/ui-event-log.ts): entries with increasing sequence
 * numbers, their data stored once per content hash, paged by cursors.
 */
module EventLog {
  import opened Basics

  const DATA_PREVIEW_MAX: nat := 2048
  const MAX_PERSISTED_DATA_BYTES: nat := 200_000

  type Seq = n: nat | n > 0 witness 1

  /** Stored text: the sanitised JSON, or the summary that stands for JSON over the size limit. */
  datatype Text = Json(text: string) | Summary(originalBytes: nat, original: Hash, preview: string)

  /** SHA-256 of a text, deterministic and injective (modelled symbolically). */
  datatype Hash = Sha256(of: Text)

  datatype Entry = Entry(seq_: Seq, createdAtMs: int, kind: string, message: string,
                         dataHash: Option<Hash>, dataPreview: Option<Text>, dataBytes: Option<nat>)

  datatype Log = Log(entries: seq<Entry>, blobs: map<Hash, Text>, next: Seq)

  const NewLog := Log([], map[], 1)

  /** Buffer.byteLength(text, 'utf8'). */
  function Utf8Length(s: string): nat {
    if s == [] then 0
    else (var c := s[0] as int; if c < 0x80 then 1 else if c < 0x800 then 2 else if c < 0x10000 then 3 else 4) + Utf8Length(s[1..])
  }

  function Prefix(s: string, n: nat): string {
    if |s| <= n then s else s[..n]
  }

  /** What is stored for an entry's JSON: itself, or a summary when it is too long. */
  function Persisted(json: string): Text {
    if Utf8Length(json) > MAX_PERSISTED_DATA_BYTES
    then Summary(Utf8Length(json), Sha256(Json(json)), Prefix(json, DATA_PREVIEW_MAX))
    else Json(json)
  }

  function Preview(json: string): Text {
    if Utf8Length(json) > MAX_PERSISTED_DATA_BYTES then Persisted(json)
    else if Utf8Length(json) <= DATA_PREVIEW_MAX then Json(json)
    else Json(Prefix(json, DATA_PREVIEW_MAX))
  }

  /** The type an entry is stored under. */
  function KindOf(kind: string): string {
    if Trim(kind) == "" then "info" else Trim(kind)
  }

  function Append(l: Log, kind: string, message: string, json: Option<string>, now: int): Log {
    var kept := KindOf(kind);
    match json
    case None => Log(l.entries + [Entry(l.next, now, kept, Trim(message), None, None, None)], l.blobs, l.next + 1)
    case Some(j) =>
      var text := Persisted(j);
      var hash := Sha256(text);
      Log(l.entries + [Entry(l.next, now, kept, Trim(message), Some(hash), Some(Preview(j)), Some(Utf8Length(j)))],
          if hash in l.blobs then l.blobs else l.blobs[hash := text],       // INSERT OR IGNORE
          l.next + 1)
  }

  function KeepNewer(es: seq<Entry>, cutoff: int): (r: seq<Entry>)
    ensures forall e :: e in r <==> e in es && e.createdAtMs >= cutoff
  {
    if es == [] then []
    else
      var front, e := es[..|es| - 1], Last(es);
      assert es == front + [e];
      KeepNewer(front, cutoff) + if e.createdAtMs >= cutoff then [e] else []
  }

  predicate Referenced(es: seq<Entry>, h: Hash) {
    exists e :: e in es && e.dataHash == Some(h)
  }

  /** DELETE FROM blobs WHERE NOT EXISTS (an entry with that hash). */
  function WithoutOrphans(blobs: map<Hash, Text>, es: seq<Entry>): map<Hash, Text> {
    map h | h in blobs && Referenced(es, h) :: blobs[h]
  }

  /** The cutoff prune uses, or None when it does nothing. */
  function Cutoff(retentionDays: Option<real>, now: int): Option<int> {
    if retentionDays.None? || retentionDays.value <= 0.0 then None
    else
      var cutoff := now - (retentionDays.value * 86400000.0).Floor;
      if cutoff <= 0 then None else Some(cutoff)
  }

  /** Old entries first, then the blobs no entry refers to any more. */
  function Prune(l: Log, retentionDays: Option<real>, now: int): Log {
    var cutoff := Cutoff(retentionDays, now);
    if cutoff.None? then l
    else
      var entries := KeepNewer(l.entries, cutoff.value);
      l.(entries := entries, blobs := WithoutOrphans(l.blobs, entries))
  }

  // ------------------------------------------------------------------- what is stored

  lemma {:induction false} Utf8Adds(a: string, b: string)
    ensures Utf8Length(a + b) == Utf8Length(a) + Utf8Length(b)
  {
    if a == [] {
      assert a + b == b;
    } else {
      Utf8Adds(a[1..], b);
      assert (a + b)[0] == a[0] && (a + b)[1..] == a[1..] + b;
    }
  }

  /** A text of ASCII characters has as many bytes as characters; any other character takes two to four. */
  lemma {:induction false} Utf8OfAscii(s: string)
    ensures |s| <= Utf8Length(s) <= 4 * |s|
    ensures Utf8Length(s) == |s| <==> forall i :: 0 <= i < |s| ==> s[i] <= '\U{007F}'
  {
    if s != [] {
      Utf8OfAscii(s[1..]);
      assert forall i :: 0 < i < |s| ==> s[i] == s[1..][i - 1];
      assert forall i :: 0 <= i < |s| - 1 ==> s[1..][i] == s[i + 1];
    }
  }

  /** A single character takes one byte up to U+007F, two up to U+07FF, three up to U+FFFF, and else four. */
  lemma Utf8OfOne(c: char)
    ensures Utf8Length([c]) == if c <= '\U{007F}' then 1 else if c <= '\U{07FF}' then 2 else if c as int <= 65_535 then 3 else 4
  {
    assert [c][1..] == [] && Utf8Length([]) == 0;
  }

  /** Up to 2048 characters of the text. */
  ghost predicate Shortened(short: string, full: string) {
    short <= full && (short == full || |short| == 2048) && |short| <= 2048
  }

  /** What an entry shows of its JSON, and under which text its data is found. */
  ghost predicate Shows(e: Entry, json: string) {
    && e.dataBytes == Some(Utf8Length(json)) && e.dataHash.Some? && e.dataPreview.Some?
    && (Utf8Length(json) <= 200_000 ==>
          && e.dataHash.value == Sha256(Json(json)) && e.dataPreview.value.Json?
          && (if Utf8Length(json) <= 2048 then e.dataPreview.value.text == json else Shortened(e.dataPreview.value.text, json)))
    && (Utf8Length(json) > 200_000 ==>
          && e.dataHash.value.of.Summary? && e.dataPreview.value == e.dataHash.value.of
          && e.dataHash.value.of.originalBytes == Utf8Length(json) && e.dataHash.value.of.original == Sha256(Json(json))
          && Shortened(e.dataHash.value.of.preview, json))
  }

  /**
   * An appended entry: numbered next, with trimmed type and message and the time;
   * its data is stored once under its hash, whole up to 200,000 bytes and else as a
   * summary; nothing stored before changes.
   */
  lemma AppendedEntry(l: Log, kind: string, message: string, json: Option<string>, now: int)
    ensures var u := Append(l, kind, message, json, now);
            && u.next == l.next + 1 && |u.entries| == |l.entries| + 1 && l.entries <= u.entries
            && var e := Last(u.entries);
               && e.seq_ == l.next && e.createdAtMs == now && e.message == Trim(message)
               && (Trim(kind) != "" ==> e.kind == Trim(kind)) && (Trim(kind) == "" ==> e.kind == "info")
               && (forall h :: h in l.blobs ==> h in u.blobs && u.blobs[h] == l.blobs[h])
               && (json.None? ==> e.dataHash.None? && e.dataPreview.None? && e.dataBytes.None? && u.blobs == l.blobs)
               && (json.Some? ==> Shows(e, json.value) && u.blobs.Keys == l.blobs.Keys + {e.dataHash.value})
  {
  }

  /** Numbering starts at 1, with nothing stored. */
  lemma StartsEmpty()
    ensures NewLog.entries == [] && NewLog.blobs == map[] && NewLog.next == 1
  {
  }

  // -------------------------------------------------------------------- blob integrity

  ghost predicate Ascending(es: seq<Entry>) {
    forall i, j :: 0 <= i < j < |es| ==> es[i].seq_ < es[j].seq_
  }

  ghost predicate Valid(l: Log) {
    && Ascending(l.entries) && (forall e :: e in l.entries ==> e.seq_ < l.next)
    && (forall h :: h in l.blobs ==> Sha256(l.blobs[h]) == h)
    && (forall e :: e in l.entries && e.dataHash.Some? ==> e.dataHash.value in l.blobs)
  }

  lemma {:induction false} KeepNewerAscends(es: seq<Entry>, cutoff: int)
    requires Ascending(es)
    ensures Ascending(KeepNewer(es, cutoff))
  {
    if es != [] {
      var front := es[..|es| - 1];
      KeepNewerAscends(front, cutoff);
      var r := KeepNewer(front, cutoff);
      forall i | 0 <= i < |r| ensures r[i].seq_ < Last(es).seq_ {
        assert r[i] in front;
      }
    }
  }

  datatype Op = OpAppend(kind: string, message: string, json: Option<string>, now: int) | OpPrune(retentionDays: Option<real>, now: int)

  function Apply(l: Log, op: Op): Log {
    match op
    case OpAppend(kind, message, json, now) => Append(l, kind, message, json, now)
    case OpPrune(days, now) => Prune(l, days, now)
  }

  function ApplyAll(l: Log, ops: seq<Op>): Log {
    if ops == [] then l else Apply(ApplyAll(l, ops[..|ops| - 1]), Last(ops))
  }

  /** Appends and prunes are applied one after the other. */
  lemma OpsInOrder(l: Log, ops: seq<Op>, op: Op)
    ensures ApplyAll(l, []) == l
    ensures var u := ApplyAll(l, ops);
            ApplyAll(l, ops + [op])
            == if op.OpAppend? then Append(u, op.kind, op.message, op.json, op.now) else Prune(u, op.retentionDays, op.now)
  {
    assert (ops + [op])[..|ops|] == ops;
  }

  /** Over any appends and prunes every entry's hash resolves to the text it is the hash of. */
  lemma {:induction false} HashesResolve(ops: seq<Op>)
    ensures var l := ApplyAll(NewLog, ops);
            Valid(l) && forall e :: e in l.entries && e.dataHash.Some? ==>
              e.dataHash.value in l.blobs && l.blobs[e.dataHash.value] == e.dataHash.value.of
  {
    if ops != [] {
      HashesResolve(ops[..|ops| - 1]);
      var l, op := ApplyAll(NewLog, ops[..|ops| - 1]), Last(ops);
      if op.OpPrune? && Cutoff(op.retentionDays, op.now).Some? {
        KeepNewerAscends(l.entries, Cutoff(op.retentionDays, op.now).value);
      }
    }
  }

  /** The retention ends at a time after the epoch. */
  ghost predicate EndsAt(days: Option<real>, now: int, cutoff: int) {
    days.Some? && days.value > 0.0 && cutoff == now - (days.value * 86_400_000.0).Floor && cutoff > 0
  }

  /**
   * A prune with a retention of so many days leaves exactly the entries that are not
   * older, and exactly the blobs these refer to; without one it changes nothing.
   */
  lemma PruneLeavesNoOrphan(l: Log, days: Option<real>, now: int)
    requires Valid(l)
    ensures var u := Prune(l, days, now);
            && u.next == l.next
            && (forall cutoff :: EndsAt(days, now, cutoff) ==>
                  && (forall h :: h in u.blobs <==> exists e :: e in u.entries && e.dataHash == Some(h))
                  && (forall h :: h in u.blobs ==> h in l.blobs && u.blobs[h] == l.blobs[h])
                  && (forall e :: e in u.entries <==> e in l.entries && e.createdAtMs >= cutoff))
            && ((forall cutoff :: !EndsAt(days, now, cutoff)) ==> u == l)
  {
    var u := Prune(l, days, now);
    assert Cutoff(days, now).Some? ==> EndsAt(days, now, Cutoff(days, now).value);
    assert forall cutoff :: EndsAt(days, now, cutoff) ==> Cutoff(days, now) == Some(cutoff);
    forall h | Referenced(u.entries, h) ensures h in u.blobs {
      var e :| e in u.entries && e.dataHash == Some(h);
      assert e in l.entries;
    }
  }

  // ---------------------------------------------------------------------------- paging

  predicate TypeOk(e: Entry, types: seq<string>) {
    types == [] || e.kind in types
  }

  predicate IsBefore(e: Entry, before: Option<nat>) {
    before.Some? && before.value > 0 ==> e.seq_ < before.value
  }

  predicate InRange(e: Entry, after: nat, until: Option<nat>) {
    e.seq_ > after && (until.Some? && until.value > 0 ==> e.seq_ <= until.value)
  }

  /** WHERE seq < before AND type IN types ORDER BY seq DESC. */
  function Newest(es: seq<Entry>, before: Option<nat>, types: seq<string>): seq<Entry> {
    if es == [] then []
    else
      var front, e := es[..|es| - 1], Last(es);
      (if IsBefore(e, before) && TypeOk(e, types) then [e] else []) + Newest(front, before, types)
  }

  /** WHERE seq > after AND seq <= until AND type IN types ORDER BY seq ASC. */
  function Oldest(es: seq<Entry>, after: nat, until: Option<nat>, types: seq<string>): seq<Entry> {
    if es == [] then []
    else
      var front, e := es[..|es| - 1], Last(es);
      Oldest(front, after, until, types) + if InRange(e, after, until) && TypeOk(e, types) then [e] else []
  }

  /** Listing selects exactly the matching entries before the cursor. */
  lemma {:induction false} NewestSelects(es: seq<Entry>, before: Option<nat>, types: seq<string>)
    ensures forall e :: e in Newest(es, before, types) <==>
              && e in es && (before.None? || before.value == 0 || e.seq_ < before.value)
              && (types == [] || exists i :: 0 <= i < |types| && types[i] == e.kind)
  {
    if es != [] {
      NewestSelects(es[..|es| - 1], before, types);
      assert es == es[..|es| - 1] + [Last(es)];
    }
  }

  /** Export selects exactly the matching entries in the range. */
  lemma {:induction false} OldestSelects(es: seq<Entry>, after: nat, until: Option<nat>, types: seq<string>)
    ensures forall e :: e in Oldest(es, after, until, types) <==>
              && e in es && e.seq_ > after && (until.None? || until.value == 0 || e.seq_ <= until.value)
              && (types == [] || exists i :: 0 <= i < |types| && types[i] == e.kind)
  {
    if es != [] {
      OldestSelects(es[..|es| - 1], after, until, types);
      assert es == es[..|es| - 1] + [Last(es)];
    }
  }

  function Take(s: seq<Entry>, n: nat): seq<Entry> {
    if |s| <= n then s else s[..n]
  }

  function Clamp(limit: Option<int>, standard: nat, most: nat): (r: nat)
    requires 0 < standard <= most
    ensures 0 < r <= most
  {
    Min(Max(if limit.Some? then limit.value else standard, 1), most)
  }

  /** A page and the cursor of the next one; a page shorter than the limit is the last. */
  function Page(rows: seq<Entry>, limit: nat): (r: (seq<Entry>, Option<nat>))
    requires limit > 0
    ensures r.0 <= rows && (r.1.Some? ==> r.0 != [] && r.1.value == Last(r.0).seq_)
    ensures r.1.None? ==> r.0 == rows
  {
    var page := Take(rows, limit);
    (page, if |page| == limit then Some(Last(page).seq_ as nat) else None)
  }

  /** The types a caller asks for, trimmed, without the blank ones. */
  function Asked(types: seq<string>): (r: seq<string>)
    ensures forall t :: t in r <==> t != "" && exists x :: x in types && Trim(x) == t
  {
    if types == [] then []
    else
      assert types == [types[0]] + types[1..];
      (if Trim(types[0]) == "" then [] else [Trim(types[0])]) + Asked(types[1..])
  }

  function List(es: seq<Entry>, limit: Option<int>, before: Option<nat>, types: seq<string>): (seq<Entry>, Option<nat>) {
    Page(Newest(es, before, Asked(types)), Clamp(limit, 200, 500))
  }

  function ExportChunk(es: seq<Entry>, after: nat, until: Option<nat>, limit: Option<int>, types: seq<string>): (seq<Entry>, Option<nat>) {
    Page(Oldest(es, after, until, Asked(types)), Clamp(limit, 1000, 5000))
  }

  /** A limit kept between 1 and the most; the standard when none is given. */
  ghost function Kept(limit: Option<int>, standard: nat, most: nat): int {
    if limit.None? then standard else if limit.value < 1 then 1 else if limit.value > most then most else limit.value
  }

  /**
   * A listing page has as many rows as match, up to the limit: 200 unless asked
   * otherwise, from 1 to 500. It names a next cursor exactly when it is full.
   */
  lemma ListSizes(es: seq<Entry>, limit: Option<int>, before: Option<nat>, types: seq<string>)
    ensures var (page, next) := List(es, limit, before, types);
            |page| == Min(|Newest(es, before, Asked(types))|, Kept(limit, 200, 500)) && (next.Some? <==> |page| == Kept(limit, 200, 500))
  {
  }

  /** The same for an export chunk: 1000 unless asked otherwise, from 1 to 5000. */
  lemma ChunkSizes(es: seq<Entry>, after: nat, until: Option<nat>, limit: Option<int>, types: seq<string>)
    ensures var (page, next) := ExportChunk(es, after, until, limit, types);
            && |page| == Min(|Oldest(es, after, until, Asked(types))|, Kept(limit, 1000, 5000))
            && (next.Some? <==> |page| == Kept(limit, 1000, 5000))
  {
  }

  /** The cursor of a page lies strictly below the one it was asked with. */
  lemma CursorFalls(es: seq<Entry>, limit: Option<int>, before: Option<nat>, types: seq<string>)
    ensures var next := List(es, limit, before, types).1;
            next.Some? ==> next.value > 0 && (before.Some? && before.value > 0 ==> next.value < before.value)
  {
    var (page, next) := List(es, limit, before, types);
    var rows := Newest(es, before, Asked(types));
    if next.Some? {
      NewestSelects(es, before, Asked(types));
      assert rows[|page| - 1] in rows && rows[|page| - 1] == Last(page);
    }
  }

  lemma CursorRises(es: seq<Entry>, after: nat, until: Seq, limit: Option<int>, types: seq<string>)
    ensures var next := ExportChunk(es, after, Some(until), limit, types).1;
            next.Some? ==> after < next.value <= until
  {
    var (page, next) := ExportChunk(es, after, Some(until), limit, types);
    var rows := Oldest(es, after, Some(until), Asked(types));
    if next.Some? {
      OldestSelects(es, after, Some(until), Asked(types));
      assert rows[|page| - 1] in rows && rows[|page| - 1] == Last(page);
    }
  }

  /** Follow nextBeforeSeq to the end; logs(k) is the log when page k is asked for. */
  function FollowDown(logs: nat -> seq<Entry>, k: nat, before: Option<nat>, limit: Option<int>, types: seq<string>): seq<Entry>
    decreases if before.Some? && before.value > 0 then 0 else 1, if before.Some? then before.value else 0
  {
    var (page, next) := List(logs(k), limit, before, types);
    CursorFalls(logs(k), limit, before, types);
    if next.None? then page else page + FollowDown(logs, k + 1, next, limit, types)
  }

  /** Follow nextAfterSeq to the end under a fixed untilSeq. */
  function FollowUp(logs: nat -> seq<Entry>, k: nat, after: nat, until: Seq, limit: Option<int>, types: seq<string>): seq<Entry>
    decreases until - after
  {
    var (page, next) := ExportChunk(logs(k), after, Some(until), limit, types);
    CursorRises(logs(k), after, until, limit, types);
    if next.None? then page else page + FollowUp(logs, k + 1, next.value, until, limit, types)
  }

  /** Appends only: at every page the log starts with what it was at the first. */
  ghost predicate OnlyAppends(logs: nat -> seq<Entry>) {
    forall k: nat :: Ascending(logs(k)) && logs(0) <= logs(k)
  }

  /** Any appends to a log leave its entries in front and number the new ones from `next` on. */
  lemma {:induction false} AppendsOnlyExtend(l: Log, ops: seq<Op>)
    requires Valid(l) && AllAppends(ops)
    ensures var u := ApplyAll(l, ops);
            Valid(u) && l.entries <= u.entries && forall i :: |l.entries| <= i < |u.entries| ==> u.entries[i].seq_ >= l.next
    ensures l.next <= ApplyAll(l, ops).next
  {
    if ops != [] {
      AppendsOnlyExtend(l, ops[..|ops| - 1]);
      AppendExtends(ApplyAll(l, ops[..|ops| - 1]), Last(ops));
    }
  }

  lemma AppendExtends(l: Log, op: Op)
    requires Valid(l) && op.OpAppend?
    ensures var u := Apply(l, op);
            Valid(u) && u.next == l.next + 1 && |u.entries| == |l.entries| + 1 && l.entries <= u.entries && Last(u.entries).seq_ == l.next
  {
  }

  /** Every entry from place n on lies beyond `until`. */
  ghost predicate Beyond(es: seq<Entry>, n: nat, until: Seq) {
    forall i :: n <= i < |es| ==> es[i].seq_ > until
  }

  ghost predicate AllAppends(ops: seq<Op>) {
    forall i :: 0 <= i < |ops| ==> ops[i].OpAppend?
  }

  /** logs(k) is the log after some appends to l. */
  ghost predicate Grows(l: Log, logs: nat -> seq<Entry>) {
    logs(0) == l.entries && forall k: nat :: exists ops :: AllAppends(ops) && logs(k) == ApplyAll(l, ops).entries
  }

  /** The logs that appends make of a valid log are what the paging theorems ask for. */
  lemma AppendsAreGrowth(l: Log, logs: nat -> seq<Entry>, until: Seq)
    requires Valid(l) && Grows(l, logs) && until < l.next
    ensures OnlyAppends(logs) && forall m: nat :: Beyond(logs(m), |logs(0)|, until)
  {
    forall k: nat ensures Ascending(logs(k)) && logs(0) <= logs(k) && Beyond(logs(k), |logs(0)|, until) {
      var ops :| AllAppends(ops) && logs(k) == ApplyAll(l, ops).entries;
      AppendsOnlyExtend(l, ops);
    }
  }

  lemma RowIsBelow(es: seq<Entry>, before: Option<nat>, types: seq<string>, i: nat, bound: nat)
    requires i < |Newest(es, before, types)| && forall j :: 0 <= j < |es| ==> es[j].seq_ < bound
    ensures Newest(es, before, types)[i].seq_ < bound
  {
    NewestSelects(es, before, types);
    assert Newest(es, before, types)[i] in es;
  }

  /** Bounds above every entry select alike. */
  lemma {:induction false} SameBelow(es: seq<Entry>, a: Option<nat>, b: Option<nat>, types: seq<string>)
    requires forall i :: 0 <= i < |es| ==> IsBefore(es[i], a) && IsBefore(es[i], b)
    ensures Newest(es, a, types) == Newest(es, b, types)
  {
    if es != [] {
      SameBelow(es[..|es| - 1], a, b, types);
    }
  }

  /** The newest entry is not before a cursor at or below it. */
  lemma SkipNewest(es: seq<Entry>, before: nat, types: seq<string>)
    requires es != [] && 0 < before <= Last(es).seq_
    ensures Newest(es, Some(before), types) == Newest(es[..|es| - 1], Some(before), types)
  {
  }

  lemma AfterTheFirst(es: seq<Entry>, before: Option<nat>, types: seq<string>)
    requires Ascending(es) && es != [] && IsBefore(Last(es), before)
    ensures Newest(es[..|es| - 1], before, types) == Newest(es, Some(Last(es).seq_ as nat), types)
  {
    SkipNewest(es, Last(es).seq_, types);
    SameBelow(es[..|es| - 1], before, Some(Last(es).seq_ as nat), types);
  }

  /** Any page of a listing is followed by the listing from its last entry. */
  lemma {:induction false} NewestSplits(es: seq<Entry>, before: Option<nat>, types: seq<string>, n: nat)
    requires Ascending(es) && 0 < n <= |Newest(es, before, types)|
    ensures Newest(es, before, types)[n..] == Newest(es, Some(Newest(es, before, types)[n - 1].seq_ as nat), types)
  {
    var front, e := es[..|es| - 1], Last(es);
    var rest := Newest(front, before, types);
    var taken := IsBefore(e, before) && TypeOk(e, types);
    assert Newest(es, before, types) == if taken then [e] + rest else rest;
    if taken && n == 1 {
      AfterTheFirst(es, before, types);
    } else {
      var m := if taken then n - 1 else n;
      assert Newest(es, before, types)[n - 1] == rest[m - 1] && Newest(es, before, types)[n..] == rest[m..];
      RowIsBelow(front, before, types, m - 1, e.seq_);
      SkipNewest(es, rest[m - 1].seq_, types);
      NewestSplits(front, before, types, m);
    }
  }

  /** What was appended later lies at or above any cursor into the first log. */
  lemma {:induction false} AppendsAreAbove(old_: seq<Entry>, new_: seq<Entry>, before: nat, types: seq<string>, i: nat)
    requires old_ <= new_ && Ascending(new_) && i < |old_| && 0 < before <= old_[i].seq_
    ensures Newest(new_, Some(before), types) == Newest(old_, Some(before), types)
  {
    if |old_| < |new_| {
      AppendsAreAbove(old_, new_[..|new_| - 1], before, types, i);
    } else {
      assert old_ == new_;
    }
  }

  /** What a page leaves is what precedes its last entry. */
  lemma PageSplits(es: seq<Entry>, before: Option<nat>, types: seq<string>, page: seq<Entry>)
    requires Ascending(es) && page != [] && page <= Newest(es, before, types)
    ensures Newest(es, before, types) == page + Newest(es, Some(Last(page).seq_ as nat), types)
  {
    var rows := Newest(es, before, types);
    NewestSplits(es, before, types, |page|);
    assert rows == rows[..|page|] + rows[|page|..];
  }

  lemma {:induction false} DownFromCursor(logs: nat -> seq<Entry>, k: nat, before: nat, limit: Option<int>, types: seq<string>, i: nat)
    requires OnlyAppends(logs) && i < |logs(0)| && 0 < before <= logs(0)[i].seq_
    ensures FollowDown(logs, k, Some(before), limit, types) == Newest(logs(0), Some(before), Asked(types))
    decreases before
  {
    var log0, log := logs(0), logs(k);
    AppendsAreAbove(log0, log, before, Asked(types), i);
    var (page, next) := List(log, limit, Some(before), types);
    if next.Some? {
      PageSplits(log0, Some(before), Asked(types), page);
      CursorFalls(log, limit, Some(before), types);
      DownFromCursor(logs, k + 1, next.value, limit, types, i);
    }
  }

  /** A listing is strictly newest first, so it names no entry twice. */
  lemma NewestDescends(es: seq<Entry>, before: Option<nat>, types: seq<string>, i: nat, j: nat)
    requires Ascending(es) && i < j < |Newest(es, before, types)|
    ensures Newest(es, before, types)[i].seq_ > Newest(es, before, types)[j].seq_
  {
    var rows := Newest(es, before, types);
    NewestSplits(es, before, types, i + 1);
    NewestSelects(es, Some(rows[i].seq_ as nat), types);
    assert rows[i + 1..][j - i - 1] == rows[j];
    assert rows[j] in Newest(es, Some(rows[i].seq_ as nat), types);
  }

  /**
   * Listing: following nextBeforeSeq from the newest entry visits every matching
   * entry of the log at the start exactly once, newest first, and ends, whatever
   * is appended between the pages.
   */
  lemma ListingVisitsAll(logs: nat -> seq<Entry>, limit: Option<int>, types: seq<string>)
    requires OnlyAppends(logs)
    ensures FollowDown(logs, 0, None, limit, types) == Newest(logs(0), None, Asked(types))
  {
    var (page, next) := List(logs(0), limit, None, types);
    if next.Some? {
      PageSplits(logs(0), None, Asked(types), page);
      var i := RowIsAnEntry(logs(0), None, Asked(types), |page| - 1);
      DownFromCursor(logs, 1, next.value, limit, types, i);
    }
  }

  lemma RowIsAnEntry(es: seq<Entry>, before: Option<nat>, types: seq<string>, n: nat) returns (i: nat)
    requires n < |Newest(es, before, types)|
    ensures i < |es| && es[i] == Newest(es, before, types)[n]
  {
    NewestSelects(es, before, types);
    assert Newest(es, before, types)[n] in es;
    i :| 0 <= i < |es| && es[i] == Newest(es, before, types)[n];
  }

  lemma RowIsFrom(es: seq<Entry>, after: nat, until: Option<nat>, types: seq<string>, i: nat, bound: nat)
    requires i < |Oldest(es, after, until, types)| && forall j :: 0 <= j < |es| ==> es[j].seq_ < bound
    ensures after < Oldest(es, after, until, types)[i].seq_ < bound
  {
    OldestSelects(es, after, until, types);
    assert Oldest(es, after, until, types)[i] in es;
  }

  lemma {:induction false} NothingAbove(es: seq<Entry>, after: nat, until: Option<nat>, types: seq<string>)
    requires forall i :: 0 <= i < |es| ==> es[i].seq_ <= after
    ensures Oldest(es, after, until, types) == []
  {
    if es != [] {
      NothingAbove(es[..|es| - 1], after, until, types);
    }
  }

  /** Any chunk of an export is followed by the export after its last entry. */
  lemma {:induction false} OldestSplits(es: seq<Entry>, after: nat, until: Option<nat>, types: seq<string>, n: nat)
    requires Ascending(es) && 0 < n <= |Oldest(es, after, until, types)|
    ensures var rows := Oldest(es, after, until, types);
            rows[n..] == Oldest(es, rows[n - 1].seq_, until, types)
  {
    var rows, front, e := Oldest(es, after, until, types), es[..|es| - 1], Last(es);
    var rest := Oldest(front, after, until, types);
    if n <= |rest| {
      OldestSplits(front, after, until, types, n);
      RowIsFrom(front, after, until, types, n - 1, e.seq_);
      assert rows[n - 1] == rest[n - 1];
    } else {
      assert rows == rest + [e] && rows[n - 1] == e;
      NothingAbove(es, e.seq_, until, types);
    }
  }

  /** An export is strictly oldest first, so it names no entry twice. */
  lemma OldestAscends(es: seq<Entry>, after: nat, until: Option<nat>, types: seq<string>, i: nat, j: nat)
    requires Ascending(es) && i < j < |Oldest(es, after, until, types)|
    ensures Oldest(es, after, until, types)[i].seq_ < Oldest(es, after, until, types)[j].seq_
  {
    var rows := Oldest(es, after, until, types);
    OldestSplits(es, after, until, types, i + 1);
    OldestSelects(es, rows[i].seq_, until, types);
    assert rows[i + 1..][j - i - 1] == rows[j];
    assert rows[j] in Oldest(es, rows[i].seq_, until, types);
  }

  lemma {:induction false} AppendsAreBeyond(old_: seq<Entry>, new_: seq<Entry>, after: nat, until: Seq, types: seq<string>)
    requires old_ <= new_ && Beyond(new_, |old_|, until)
    ensures Oldest(new_, after, Some(until), types) == Oldest(old_, after, Some(until), types)
  {
    if |old_| < |new_| {
      AppendsAreBeyond(old_, new_[..|new_| - 1], after, until, types);
    } else {
      assert old_ == new_;
    }
  }

  /**
   * Export: with a fixed untilSeq no later append reaches, following
   * nextAfterSeq visits every matching entry after the cursor exactly once,
   * oldest first, and ends.
   */
  lemma {:induction false} ExportVisitsAll(logs: nat -> seq<Entry>, k: nat, after: nat, until: Seq, limit: Option<int>, types: seq<string>)
    requires OnlyAppends(logs) && forall m: nat :: Beyond(logs(m), |logs(0)|, until)
    ensures FollowUp(logs, k, after, until, limit, types) == Oldest(logs(0), after, Some(until), Asked(types))
    decreases until - after
  {
    var log0, log := logs(0), logs(k);
    assert log0 <= log && Beyond(log, |log0|, until);
    AppendsAreBeyond(log0, log, after, until, Asked(types));
    var (page, next) := ExportChunk(log, after, Some(until), limit, types);
    if next.Some? {
      ChunkSplits(log0, after, until, Asked(types), page);
      CursorRises(log, after, until, limit, types);
      ExportVisitsAll(logs, k + 1, next.value, until, limit, types);
    }
  }

  /** What a chunk leaves is what follows its last entry. */
  lemma ChunkSplits(es: seq<Entry>, after: nat, until: Seq, types: seq<string>, page: seq<Entry>)
    requires Ascending(es) && page != [] && page <= Oldest(es, after, Some(until), types)
    ensures Oldest(es, after, Some(until), types) == page + Oldest(es, Last(page).seq_, Some(until), types)
  {
    var rows := Oldest(es, after, Some(until), types);
    OldestSplits(es, after, Some(until), types, |page|);
    assert rows == rows[..|page|] + rows[|page|..];
  }

  // ------------------------------------------------------------- paging while entries are pruned

  /** logs(k) is the log after some appends and prunes. */
  ghost predicate Changes(l: Log, logs: nat -> seq<Entry>) {
    logs(0) == l.entries && forall k: nat :: exists ops :: logs(k) == ApplyAll(l, ops).entries
  }

  ghost predicate InOrder(logs: nat -> seq<Entry>) {
    forall k: nat :: Ascending(logs(k))
  }

  /** Every log is in order, and has besides entries of the first only new ones, numbered from `bound` on. */
  ghost predicate OldOrNew(logs: nat -> seq<Entry>, bound: nat) {
    && InOrder(logs)
    && (forall e :: e in logs(0) ==> e.seq_ < bound)
    && (forall k: nat, e: Entry :: e in logs(k) ==> e in logs(0) || e.seq_ >= bound)
  }

  lemma {:induction false} OpsAddOnlyNew(l: Log, ops: seq<Op>)
    requires Valid(l)
    ensures var u := ApplyAll(l, ops);
            Valid(u) && l.next <= u.next && forall e :: e in u.entries ==> e in l.entries || e.seq_ >= l.next
  {
    if ops != [] {
      OpsAddOnlyNew(l, ops[..|ops| - 1]);
      OpAddsOnlyNew(ApplyAll(l, ops[..|ops| - 1]), Last(ops));
    }
  }

  lemma OpAddsOnlyNew(l: Log, op: Op)
    requires Valid(l)
    ensures var u := Apply(l, op);
            Valid(u) && l.next <= u.next && forall e :: e in u.entries ==> e in l.entries || e.seq_ >= l.next
  {
    if op.OpAppend? {
      AppendExtends(l, op);
    } else if Cutoff(op.retentionDays, op.now).Some? {
      KeepNewerAscends(l.entries, Cutoff(op.retentionDays, op.now).value);
    }
  }

  lemma ChangesAddOnlyNew(l: Log, logs: nat -> seq<Entry>)
    requires Valid(l) && Changes(l, logs)
    ensures OldOrNew(logs, l.next)
  {
    forall k: nat ensures Ascending(logs(k)) && forall e :: e in logs(k) ==> e in logs(0) || e.seq_ >= l.next {
      var ops :| logs(k) == ApplyAll(l, ops).entries;
      OpsAddOnlyNew(l, ops);
    }
  }

  /** The entry is there at the start and no prune removes it. */
  ghost predicate Survives(logs: nat -> seq<Entry>, x: Entry) {
    forall k: nat :: x in logs(k)
  }

  ghost predicate Descends(es: seq<Entry>) {
    forall i, j :: 0 <= i < j < |es| ==> es[i].seq_ > es[j].seq_
  }

  /** What is visited matches, comes before the cursor, and was there at the start. */
  ghost predicate Wanted(log: seq<Entry>, es: seq<Entry>, before: Option<nat>, types: seq<string>) {
    forall e :: e in es ==> e in log && IsBefore(e, before) && TypeOk(e, types)
  }

  lemma PageDescends(es: seq<Entry>, before: Option<nat>, types: seq<string>, page: seq<Entry>)
    requires Ascending(es) && page <= Newest(es, before, types)
    ensures Descends(page) && forall e :: e in page ==> e in es && IsBefore(e, before) && TypeOk(e, types)
  {
    NewestSelects(es, before, types);
    assert forall e :: e in page ==> e in Newest(es, before, types);
    forall i, j | 0 <= i < j < |page| ensures page[i].seq_ > page[j].seq_ {
      NewestDescends(es, before, types, i, j);
    }
  }

  lemma JoinDown(log: seq<Entry>, page: seq<Entry>, rest: seq<Entry>, before: Option<nat>, types: seq<string>)
    requires page != [] && Descends(page) && Wanted(log, page, before, types)
    requires Descends(rest) && Wanted(log, rest, Some(Last(page).seq_ as nat), types)
    ensures Descends(page + rest) && Wanted(log, page + rest, before, types)
  {
    assert Last(page) in page;
    forall i | 0 <= i < |rest| ensures rest[i].seq_ < Last(page).seq_ && IsBefore(rest[i], before) {
      assert rest[i] in rest;
    }
    forall i | 0 <= i < |page| ensures page[i].seq_ >= Last(page).seq_ { }
    var all := page + rest;
    forall i, j | 0 <= i < j < |all| ensures all[i].seq_ > all[j].seq_ {
      if j >= |page| { assert all[j] == rest[j - |page|]; }
    }
  }

  /** A page of a later log that is asked for with a cursor among the old numbers shows only entries of the first log. */
  lemma OldPage(logs: nat -> seq<Entry>, bound: nat, k: nat, before: Option<nat>, types: seq<string>, page: seq<Entry>)
    requires OldOrNew(logs, bound) && page <= Newest(logs(k), before, types)
    requires k == 0 || (before.Some? && 0 < before.value <= bound)
    ensures Descends(page) && Wanted(logs(0), page, before, types)
  {
    PageDescends(logs(k), before, types, page);
    forall e | e in page ensures e in logs(0) { }
  }

  /** The rest of a listing from a cursor among the old numbers. */
  ghost predicate VisitsOnce(logs: nat -> seq<Entry>, k: nat, before: Option<nat>, limit: Option<int>, types: seq<string>) {
    var visited := FollowDown(logs, k, before, limit, types);
    Descends(visited) && Wanted(logs(0), visited, before, Asked(types))
  }

  lemma PageThenRest(logs: nat -> seq<Entry>, bound: nat, k: nat, before: Option<nat>, limit: Option<int>, types: seq<string>)
    requires OldOrNew(logs, bound) && (k == 0 || (before.Some? && 0 < before.value <= bound))
    requires var next := List(logs(k), limit, before, types).1; next.Some? ==> VisitsOnce(logs, k + 1, next, limit, types)
    ensures VisitsOnce(logs, k, before, limit, types)
  {
    var (page, next) := List(logs(k), limit, before, types);
    OldPage(logs, bound, k, before, Asked(types), page);
    if next.Some? {
      JoinDown(logs(0), page, FollowDown(logs, k + 1, next, limit, types), before, Asked(types));
    }
  }

  /** The cursor of a page is the number of an old entry. */
  lemma CursorIsOld(logs: nat -> seq<Entry>, bound: nat, k: nat, before: Option<nat>, limit: Option<int>, types: seq<string>)
    requires OldOrNew(logs, bound) && (k == 0 || (before.Some? && 0 < before.value <= bound))
    ensures var next := List(logs(k), limit, before, types).1; next.Some? ==> 0 < next.value < bound
  {
    var (page, next) := List(logs(k), limit, before, types);
    if next.Some? {
      OldPage(logs, bound, k, before, Asked(types), page);
      assert Last(page) in page;
    }
  }

  lemma {:induction false} DownVisitsOnce(logs: nat -> seq<Entry>, bound: nat, k: nat, before: nat,
                                          limit: Option<int>, types: seq<string>)
    requires OldOrNew(logs, bound) && 0 < before <= bound
    ensures VisitsOnce(logs, k, Some(before), limit, types)
    decreases before
  {
    var next := List(logs(k), limit, Some(before), types).1;
    if next.Some? {
      CursorFalls(logs(k), limit, Some(before), types);
      CursorIsOld(logs, bound, k, Some(before), limit, types);
      DownVisitsOnce(logs, bound, k + 1, next.value, limit, types);
    }
    PageThenRest(logs, bound, k, Some(before), limit, types);
  }

  /** A matching entry is on the page or is left for the next. */
  lemma OnPageOrLeft(es: seq<Entry>, limit: Option<int>, before: Option<nat>, types: seq<string>, x: Entry)
    requires Ascending(es) && x in es && IsBefore(x, before) && TypeOk(x, Asked(types))
    ensures var (page, next) := List(es, limit, before, types); x in page || (next.Some? && IsBefore(x, next))
  {
    var (page, next) := List(es, limit, before, types);
    NewestSelects(es, before, Asked(types));
    if next.Some? && x !in page {
      PageSplits(es, before, Asked(types), page);
      NewestSelects(es, next, Asked(types));
    }
  }

  lemma DownVisits(logs: nat -> seq<Entry>, k: nat, before: Option<nat>, limit: Option<int>, types: seq<string>, x: Entry)
    requires var (page, next) := List(logs(k), limit, before, types);
             x in page || (next.Some? && x in FollowDown(logs, k + 1, next, limit, types))
    ensures x in FollowDown(logs, k, before, limit, types)
  {
  }

  lemma {:induction false} SurvivorIsListed(logs: nat -> seq<Entry>, k: nat, before: nat,
                                            limit: Option<int>, types: seq<string>, x: Entry)
    requires InOrder(logs) && Survives(logs, x)
    requires before > 0 && IsBefore(x, Some(before)) && TypeOk(x, Asked(types))
    ensures x in FollowDown(logs, k, Some(before), limit, types)
    decreases before
  {
    var (page, next) := List(logs(k), limit, Some(before), types);
    assert Ascending(logs(k)) && x in logs(k);
    OnPageOrLeft(logs(k), limit, Some(before), types, x);
    CursorFalls(logs(k), limit, Some(before), types);
    if x !in page {
      SurvivorIsListed(logs, k + 1, next.value, limit, types, x);
    }
    DownVisits(logs, k, Some(before), limit, types, x);
  }

  lemma ListingVisitsOnce(logs: nat -> seq<Entry>, bound: nat, k: nat, before: Option<nat>, limit: Option<int>, types: seq<string>)
    requires OldOrNew(logs, bound) && k == 0 && before.None?
    ensures VisitsOnce(logs, k, before, limit, types)
  {
    var next := List(logs(k), limit, before, types).1;
    if next.Some? {
      CursorIsOld(logs, bound, k, before, limit, types);
      DownVisitsOnce(logs, bound, k + 1, next.value, limit, types);
    }
    PageThenRest(logs, bound, k, before, limit, types);
  }

  lemma SurvivorIsVisited(logs: nat -> seq<Entry>, k: nat, before: Option<nat>, limit: Option<int>, types: seq<string>, x: Entry)
    requires InOrder(logs) && Survives(logs, x) && TypeOk(x, Asked(types)) && before.None?
    ensures x in FollowDown(logs, k, before, limit, types)
  {
    var (page, next) := List(logs(k), limit, before, types);
    assert Ascending(logs(k)) && x in logs(k);
    OnPageOrLeft(logs(k), limit, before, types, x);
    CursorFalls(logs(k), limit, before, types);
    if x !in page {
      SurvivorIsListed(logs, k + 1, next.value, limit, types, x);
    }
    DownVisits(logs, k, before, limit, types, x);
  }

  /**
   * Listing while entries are appended and pruned: following nextBeforeSeq visits
   * nothing twice, newest first, nothing but matching entries of the log at the
   * start, and every one of these that no prune removes meanwhile.
   */
  lemma ListingUnderPrunes(l: Log, logs: nat -> seq<Entry>, limit: Option<int>, types: seq<string>)
    requires Valid(l) && Changes(l, logs)
    ensures var visited := FollowDown(logs, 0, None, limit, types);
            && Descends(visited)
            && (forall e :: e in visited ==> e in l.entries && TypeOk(e, Asked(types)))
            && (forall x: Entry :: Survives(logs, x) && TypeOk(x, Asked(types)) ==> x in visited)
  {
    ChangesAddOnlyNew(l, logs);
    ListingVisitsOnce(logs, l.next, 0, None, limit, types);
    forall x: Entry | Survives(logs, x) && TypeOk(x, Asked(types)) ensures x in FollowDown(logs, 0, None, limit, types) {
      SurvivorIsVisited(logs, 0, None, limit, types, x);
    }
  }

  /** What an export visits matches, lies in the range, and was there at the start. */
  ghost predicate WantedUp(log: seq<Entry>, es: seq<Entry>, after: nat, until: Seq, types: seq<string>) {
    forall e :: e in es ==> e in log && InRange(e, after, Some(until)) && TypeOk(e, types)
  }

  lemma OldChunk(logs: nat -> seq<Entry>, bound: nat, k: nat, after: nat, until: Seq, types: seq<string>, page: seq<Entry>)
    requires OldOrNew(logs, bound) && until < bound && page <= Oldest(logs(k), after, Some(until), types)
    ensures Ascending(page) && WantedUp(logs(0), page, after, until, types)
  {
    var es := logs(k);
    OldestSelects(es, after, Some(until), types);
    forall e | e in page ensures e in logs(0) && InRange(e, after, Some(until)) && TypeOk(e, types) {
      assert e in Oldest(es, after, Some(until), types);
    }
    forall i, j | 0 <= i < j < |page| ensures page[i].seq_ < page[j].seq_ {
      OldestAscends(es, after, Some(until), types, i, j);
    }
  }

  lemma JoinUp(log: seq<Entry>, page: seq<Entry>, rest: seq<Entry>, after: nat, until: Seq, types: seq<string>)
    requires page != [] && Ascending(page) && WantedUp(log, page, after, until, types)
    requires Ascending(rest) && WantedUp(log, rest, Last(page).seq_, until, types)
    ensures Ascending(page + rest) && WantedUp(log, page + rest, after, until, types)
  {
    assert Last(page) in page;
    forall i | 0 <= i < |rest| ensures rest[i].seq_ > Last(page).seq_ {
      assert rest[i] in rest;
    }
    forall i | 0 <= i < |page| ensures page[i].seq_ <= Last(page).seq_ { }
    var all := page + rest;
    forall i, j | 0 <= i < j < |all| ensures all[i].seq_ < all[j].seq_ {
      if j >= |page| { assert all[j] == rest[j - |page|]; }
    }
  }

  lemma {:induction false} UpVisitsOnce(logs: nat -> seq<Entry>, bound: nat, k: nat, after: nat, until: Seq,
                                        limit: Option<int>, types: seq<string>)
    requires OldOrNew(logs, bound) && until < bound
    ensures Ascending(FollowUp(logs, k, after, until, limit, types))
    ensures WantedUp(logs(0), FollowUp(logs, k, after, until, limit, types), after, until, Asked(types))
    decreases until - after
  {
    var (page, next) := ExportChunk(logs(k), after, Some(until), limit, types);
    OldChunk(logs, bound, k, after, until, Asked(types), page);
    CursorRises(logs(k), after, until, limit, types);
    if next.Some? {
      UpVisitsOnce(logs, bound, k + 1, next.value, until, limit, types);
      JoinUp(logs(0), page, FollowUp(logs, k + 1, next.value, until, limit, types), after, until, Asked(types));
    }
  }

  lemma InChunkOrLeft(es: seq<Entry>, limit: Option<int>, after: nat, until: Seq, types: seq<string>, x: Entry)
    requires Ascending(es) && x in es && InRange(x, after, Some(until)) && TypeOk(x, Asked(types))
    ensures var (page, next) := ExportChunk(es, after, Some(until), limit, types);
            x in page || (next.Some? && InRange(x, next.value, Some(until)))
  {
    var (page, next) := ExportChunk(es, after, Some(until), limit, types);
    OldestSelects(es, after, Some(until), Asked(types));
    if next.Some? && x !in page {
      ChunkSplits(es, after, until, Asked(types), page);
      OldestSelects(es, next.value, Some(until), Asked(types));
    }
  }

  lemma UpVisits(logs: nat -> seq<Entry>, k: nat, after: nat, until: Seq, limit: Option<int>, types: seq<string>, x: Entry)
    requires var (page, next) := ExportChunk(logs(k), after, Some(until), limit, types);
             x in page || (next.Some? && next.value <= until && x in FollowUp(logs, k + 1, next.value, until, limit, types))
    ensures x in FollowUp(logs, k, after, until, limit, types)
  {
  }

  lemma {:induction false} SurvivorIsExported(logs: nat -> seq<Entry>, k: nat, after: nat, until: Seq,
                                              limit: Option<int>, types: seq<string>, x: Entry)
    requires InOrder(logs) && Survives(logs, x) && InRange(x, after, Some(until)) && TypeOk(x, Asked(types))
    ensures x in FollowUp(logs, k, after, until, limit, types)
    decreases until - after
  {
    var (page, next) := ExportChunk(logs(k), after, Some(until), limit, types);
    assert Ascending(logs(k)) && x in logs(k);
    InChunkOrLeft(logs(k), limit, after, until, types, x);
    CursorRises(logs(k), after, until, limit, types);
    if x !in page {
      SurvivorIsExported(logs, k + 1, next.value, until, limit, types, x);
    }
    UpVisits(logs, k, after, until, limit, types, x);
  }

  /** The same for an export under a fixed untilSeq no later append reaches, oldest first. */
  lemma ExportUnderPrunes(l: Log, logs: nat -> seq<Entry>, after: nat, until: Seq, limit: Option<int>, types: seq<string>)
    requires Valid(l) && Changes(l, logs) && until < l.next
    ensures var visited := FollowUp(logs, 0, after, until, limit, types);
            && Ascending(visited)
            && (forall e :: e in visited ==> e in l.entries && InRange(e, after, Some(until)) && TypeOk(e, Asked(types)))
            && (forall x: Entry :: Survives(logs, x) && InRange(x, after, Some(until)) && TypeOk(x, Asked(types)) ==> x in visited)
  {
    ChangesAddOnlyNew(l, logs);
    UpVisitsOnce(logs, l.next, 0, after, until, limit, types);
    forall x: Entry | Survives(logs, x) && InRange(x, after, Some(until)) && TypeOk(x, Asked(types))
      ensures x in FollowUp(logs, 0, after, until, limit, types)
    {
      SurvivorIsExported(logs, 0, after, until, limit, types, x);
    }
  }

  // ---------------------------------------------------------------- the store as an object

  datatype Pruned = Pruned(cutoff: int, deletedEntries: int, deletedBlobs: int)

  class EventLogStore {
    var entries: seq<Entry>
    var blobs: map<Hash, Text>
    var next: Seq

    constructor ()
      ensures View() == NewLog && Valid(View())
    {
      entries, blobs, next := [], map[], 1;
    }

    function View(): Log
      reads this
    {
      Log(entries, blobs, next)
    }

    method AppendEntry(kind: string, message: string, json: Option<string>, now: int) returns (seq_: Seq, hash: Option<Hash>)
      modifies this
      ensures View() == Append(old(View()), kind, message, json, now)
      ensures |entries| == |old(entries)| + 1 && Last(entries).seq_ == seq_ && Last(entries).dataHash == hash
      ensures hash.Some? ==> hash.value in blobs
    {
      var preview: Option<Text>, bytes: Option<nat> := None, None;
      hash := None;
      if json.Some? {
        var text := Persisted(json.value);
        hash := Some(Sha256(text));
        if Sha256(text) !in blobs {
          blobs := blobs[Sha256(text) := text];
        }
        preview, bytes := Some(Preview(json.value)), Some(Utf8Length(json.value));
      }
      seq_ := next;
      entries := entries + [Entry(seq_, now, KindOf(kind), Trim(message), hash, preview, bytes)];
      next := next + 1;
    }

    method PruneEntries(retentionDays: Option<real>, now: int) returns (r: Option<Pruned>)
      modifies this
      ensures View() == Prune(old(View()), retentionDays, now)
      ensures r.Some? <==> Cutoff(retentionDays, now).Some?
      ensures r.Some? ==> r.value.cutoff == Cutoff(retentionDays, now).value
                          && r.value.deletedEntries + |entries| == |old(entries)| && r.value.deletedBlobs + |blobs| == |old(blobs)|
    {
      var cutoff := Cutoff(retentionDays, now);
      if cutoff.None? {
        return None;
      }
      var kept := KeepNewer(entries, cutoff.value);
      var left := WithoutOrphans(blobs, kept);
      r := Some(Pruned(cutoff.value, |entries| - |kept|, |blobs| - |left|));
      entries, blobs := kept, left;
    }
  }
}
