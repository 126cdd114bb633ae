/**
 * Asking the group to sign (src/cinderella/request.ts) and waiting for enough
 * nonces first (ensure_nonces in src/cinderella/resync.ts). What bifrost emits
 * and how its promises settle is given from outside.
 */
module SignRounds {
  import opened Basics
  import opened NoncePool
  import HeldConfig
  import opened HeldStore

  type PeerRefusal = HeldConfig.PeerRefusal

  datatype Member = Member(idx: nat, pubkey: string)
  datatype Peer = Peer(pubkey: string, send: bool)
  datatype Group = Group(self: nat, threshold: nat, groupKey: string, members: seq<Member>, peers: seq<Peer>)

  function XOnly(pubkey: string): string {
    if |pubkey| == 66 then pubkey[2..] else pubkey
  }

  function Last64(s: string): string {
    if |s| <= 64 then s else s[|s| - 64..]
  }

  /** The last 64 characters of the member's key are the given one, which may carry the two characters of a compressed key. */
  ghost predicate HasKey(m: Member, pubkey: string) {
    (if |m.pubkey| > 64 then m.pubkey[|m.pubkey| - 64..] else m.pubkey) == (if |pubkey| == 66 then pubkey[2..] else pubkey)
  }

  /** The index of the first member with that key. */
  ghost predicate FirstWithKey(members: seq<Member>, pubkey: string, idx: nat) {
    exists k :: 0 <= k < |members| && members[k].idx == idx && HasKey(members[k], pubkey)
                && forall j :: 0 <= j < k ==> !HasKey(members[j], pubkey)
  }

  function MemberIdx(members: seq<Member>, pubkey: string): (r: Option<nat>)
    ensures r.Some? ==> FirstWithKey(members, pubkey, r.value)
    ensures r.None? ==> forall m :: m in members ==> !HasKey(m, pubkey)
  {
    if members == [] then None
    else if Last64(members[0].pubkey) == XOnly(pubkey) then Some(members[0].idx)
    else
      var r := MemberIdx(members[1..], pubkey);
      FirstIsLater(members, pubkey, r);
      r
  }

  lemma FirstIsLater(members: seq<Member>, pubkey: string, idx: Option<nat>)
    requires members != [] && !HasKey(members[0], pubkey) && (idx.Some? ==> FirstWithKey(members[1..], pubkey, idx.value))
    ensures idx.Some? ==> FirstWithKey(members, pubkey, idx.value)
  {
    if idx.Some? {
      var tail := members[1..];
      var k :| 0 <= k < |tail| && tail[k].idx == idx.value && HasKey(tail[k], pubkey)
               && forall j :: 0 <= j < k ==> !HasKey(tail[j], pubkey);
      assert members[k + 1] == tail[k];
      assert forall j :: 1 <= j < k + 1 ==> members[j] == tail[j - 1];
    }
  }

  // ------------------------------------------------------------------ ensure_nonces

  /** A peer we may ask: allowed by policy and in `only`, if given. */
  predicate MayAsk(only: Option<seq<string>>, p: Peer) {
    p.send && (only.None? || exists k :: 0 <= k < |only.value| && XOnly(only.value[k]) == XOnly(p.pubkey))
  }

  /** Both keys are the same, with or without the two characters of a compressed key. */
  ghost predicate SameKey(a: string, b: string) {
    (if |a| == 66 then a[2..] else a) == (if |b| == 66 then b[2..] else b)
  }

  /** We may send to the peer, it is among those wanted, if any are named, and the group knows it under this index. */
  ghost predicate AskedAs(g: Group, only: Option<seq<string>>, p: Peer, i: nat) {
    && p.send && (only.None? || exists k :: 0 <= k < |only.value| && SameKey(only.value[k], p.pubkey))
    && MemberIdx(g.members, p.pubkey) == Some(i)
  }

  function IndexOf(g: Group, only: Option<seq<string>>, p: Peer): (r: seq<nat>)
    ensures forall i :: i in r <==> AskedAs(g, only, p, i)
  {
    var idx := MemberIdx(g.members, p.pubkey);
    assert MayAsk(only, p) <==> p.send && (only.None? || exists k :: 0 <= k < |only.value| && SameKey(only.value[k], p.pubkey));
    if MayAsk(only, p) && idx.Some? then [idx.value] else []
  }

  /** The member indexes of the peers we may ask, as far as the group knows them. */
  function Askable(g: Group, only: Option<seq<string>>, peers: seq<Peer>): (r: seq<nat>)
    ensures forall i :: i in r <==> exists p :: p in peers && AskedAs(g, only, p, i)
  {
    if peers == [] then []
    else
      assert peers == [peers[0]] + peers[1..];
      IndexOf(g, only, peers[0]) + Askable(g, only, peers[1..])
  }

  function Needed(g: Group, only: Option<seq<string>>): int {
    if only.Some? then Min(g.threshold - 1, |only.value|) else g.threshold - 1
  }

  type Incoming = map<nat, set<Nonce>>

  /** bifrost's can_sign: more than the critical number of the peer's nonces are held. */
  predicate CanSign(cfg: Config, incoming: Incoming, peer: nat) {
    |At(incoming, peer)| > cfg.critical
  }

  function Signable(cfg: Config, peers: seq<nat>, incoming: Incoming): nat {
    if peers == [] then 0 else (if CanSign(cfg, incoming, peers[0]) then 1 else 0) + Signable(cfg, peers[1..], incoming)
  }

  /** The peers we hold more than the critical number of nonces from. */
  ghost function Supplied(cfg: Config, peers: seq<nat>, incoming: Incoming): set<nat> {
    set i | i in peers && i in incoming && |incoming[i]| > cfg.critical
  }

  lemma OneMorePeer(cfg: Config, peer: nat, peers: seq<nat>, incoming: Incoming)
    ensures Supplied(cfg, [peer] + peers, incoming)
            == Supplied(cfg, peers, incoming) + if CanSign(cfg, incoming, peer) then {peer} else {}
  {
    var all := [peer] + peers;
    assert forall i :: i in all <==> i == peer || i in peers;
  }

  /** Of distinct peers these are the ones that count as signable. */
  lemma {:induction false} SignableCounts(cfg: Config, peers: seq<nat>, incoming: Incoming)
    requires forall i, j :: 0 <= i < j < |peers| ==> peers[i] != peers[j]
    ensures Signable(cfg, peers, incoming) == |Supplied(cfg, peers, incoming)|
  {
    if peers != [] {
      var tail := peers[1..];
      assert forall i, j :: 0 <= i < j < |tail| ==> tail[i] == peers[i + 1] && tail[j] == peers[j + 1];
      SignableCounts(cfg, tail, incoming);
      assert peers == [peers[0]] + tail && peers[0] !in tail;
      OneMorePeer(cfg, peers[0], tail, incoming);
    }
  }

  function Lacking(cfg: Config, peers: seq<nat>, incoming: Incoming): (r: seq<nat>)
    ensures forall i :: i in r <==> i in peers && !CanSign(cfg, incoming, i)
    ensures |r| + Signable(cfg, peers, incoming) == |peers|
  {
    if peers == [] then []
    else (if CanSign(cfg, incoming, peers[0]) then [] else [peers[0]]) + Lacking(cfg, peers[1..], incoming)
  }

  /** A ping's promise settled (answered or failed); incoming: the nonces held then. */
  datatype Settlement = Settlement(peer: nat, incoming: Incoming)

  function PeersOf(settlements: seq<Settlement>): seq<nat> {
    seq(|settlements|, i requires 0 <= i < |settlements| => settlements[i].peer)
  }

  /** How pings settle: whichever peers are pinged, each ping settles once, in some order. */
  ghost predicate Settles(settle: seq<nat> -> seq<Settlement>) {
    forall peers: seq<nat> :: multiset(PeersOf(settle(peers))) == multiset(peers)
  }

  /** What is held after n pings have settled. */
  function HeldAfter(incoming: Incoming, settlements: seq<Settlement>, n: nat): Incoming
    requires n <= |settlements|
  {
    if n == 0 then incoming else settlements[n - 1].incoming
  }

  /** Waits for pings to settle, as long as more are pending and too few peers are signable. */
  method AwaitPings(cfg: Config, peers: seq<nat>, need: int, incoming: Incoming, settlements: seq<Settlement>) returns (waited: nat)
    requires Signable(cfg, peers, incoming) < need
    ensures waited <= |settlements|
    ensures forall k :: 0 <= k < waited ==> Signable(cfg, peers, HeldAfter(incoming, settlements, k)) < need
    ensures waited < |settlements| ==> Signable(cfg, peers, HeldAfter(incoming, settlements, waited)) >= need
  {
    var pending := |settlements|;
    waited := 0;
    while pending > 0 && Signable(cfg, peers, HeldAfter(incoming, settlements, waited)) < need
      invariant 0 <= pending && waited + pending == |settlements|
      invariant forall k :: 0 <= k < waited ==> Signable(cfg, peers, HeldAfter(incoming, settlements, k)) < need
    {
      waited, pending := waited + 1, pending - 1;
    }
  }

  /** n signable peers are fewer than threshold - 1, and not all of those asked for. */
  predicate TooFew(g: Group, only: Option<seq<string>>, n: nat) {
    n < g.threshold - 1 && (only.Some? ==> n < |only.value|)
  }

  /** Whom ensure_nonces pings: the askable peers that cannot sign, or nobody when enough can. */
  function ToPing(cfg: Config, g: Group, only: Option<seq<string>>, incoming: Incoming): seq<nat> {
    var peers := Askable(g, only, g.peers);
    if Signable(cfg, peers, incoming) >= Needed(g, only) then [] else Lacking(cfg, peers, incoming)
  }

  /**
   * In terms of the threshold and the peers asked for: while fewer than
   * threshold - 1 askable peers can sign, and not all of those asked for, exactly
   * the askable ones with no more than the critical number of nonces are pinged;
   * otherwise nobody is.
   */
  lemma PingsExactlyWhenShort(cfg: Config, g: Group, only: Option<seq<string>>, incoming: Incoming, idx: nat)
    ensures var peers := Askable(g, only, g.peers);
            var able := Signable(cfg, peers, incoming);
            idx in ToPing(cfg, g, only, incoming) <==>
              && able < g.threshold - 1 && (only.Some? ==> able < |only.value|)
              && idx in peers && (idx in incoming ==> |incoming[idx]| <= cfg.critical)
  {
  }

  /**
   * The wait ends in time: while more pings had to settle too few peers could sign,
   * and it ends before all have settled only if threshold - 1 peers, or all of those
   * asked for, can; signable is how many can in the end.
   */
  ghost predicate StopsInTime(cfg: Config, g: Group, only: Option<seq<string>>, incoming: Incoming,
                              settled: seq<Settlement>, waited: nat, signable: nat)
    requires waited <= |settled|
  {
    var peers := Askable(g, only, g.peers);
    && (waited > 0 ==> TooFew(g, only, Signable(cfg, peers, incoming)))
    && (forall k :: 0 <= k < waited - 1 ==> TooFew(g, only, Signable(cfg, peers, settled[k].incoming)))
    && signable == Signable(cfg, peers, if waited == 0 then incoming else settled[waited - 1].incoming)
    && (waited < |settled| ==> signable >= g.threshold - 1 || (only.Some? && signable >= |only.value|))
  }

  lemma StopsWhenEnough(cfg: Config, g: Group, only: Option<seq<string>>, incoming: Incoming,
                        settled: seq<Settlement>, waited: nat, signable: nat)
    requires waited <= |settled| && signable == Signable(cfg, Askable(g, only, g.peers), HeldAfter(incoming, settled, waited))
    requires forall k :: 0 <= k < waited ==>
               Signable(cfg, Askable(g, only, g.peers), HeldAfter(incoming, settled, k)) < Needed(g, only)
    requires waited < |settled| ==> signable >= Needed(g, only)
    ensures StopsInTime(cfg, g, only, incoming, settled, waited, signable)
  {
    if waited > 0 {
      assert HeldAfter(incoming, settled, 0) == incoming;
    }
    forall k | 0 <= k < waited - 1 ensures TooFew(g, only, Signable(cfg, Askable(g, only, g.peers), settled[k].incoming)) {
      assert HeldAfter(incoming, settled, k + 1) == settled[k].incoming;
    }
  }

  /**
   * ensure_nonces, for any order in which the pings settle. It pings exactly the
   * askable peers that cannot sign, and none when enough can. It returns at the
   * first settlement that leaves enough signable peers; a result below the need
   * means that every lacking peer's ping has settled, each of them once.
   */
  method EnsureNonces(cfg: Config, g: Group, only: Option<seq<string>>, incoming: Incoming, settle: seq<nat> -> seq<Settlement>)
    returns (signable: nat, pinged: seq<nat>, waited: nat)
    requires Settles(settle)
    ensures pinged == ToPing(cfg, g, only, incoming) && waited <= |settle(pinged)|
    ensures var peers := Askable(g, only, g.peers);
            && StopsInTime(cfg, g, only, incoming, settle(pinged), waited, signable)
            && (TooFew(g, only, signable) ==> multiset(PeersOf(settle(pinged)[..waited])) == multiset(Lacking(cfg, peers, incoming)))
  {
    var peers, need := Askable(g, only, g.peers), Needed(g, only);
    signable, pinged, waited := Signable(cfg, peers, incoming), [], 0;
    if signable < need {
      pinged := Lacking(cfg, peers, incoming);
      waited := AwaitPings(cfg, peers, need, incoming, settle(pinged));
      signable := Signable(cfg, peers, HeldAfter(incoming, settle(pinged), waited));
      StopsWhenEnough(cfg, g, only, incoming, settle(pinged), waited, signable);
      assert waited == |settle(pinged)| ==> settle(pinged)[..waited] == settle(pinged);
    }
  }

  // --------------------------------------------------------------------- sign_round

  /** What bifrost's node emits while a session is open. */
  datatype RoundEvent =
    | SessionRejected(hashes: seq<EventId>, members: seq<nat>)      // '/sign/sender/rej'
    | PeersFailed(senders: seq<string>)                             // '/sign/sender/err'
    | RejectMessage(peer: string, sighash: Option<EventId>, code: HeldConfig.Code, unlockAt: Option<int>, retryAt: Option<int>)

  function PeerIndexes(members: seq<Member>, pubkeys: seq<string>): (r: seq<nat>)
    ensures forall i :: i in r <==> exists k :: 0 <= k < |pubkeys| && MemberIdx(members, pubkeys[k]) == Some(i)
  {
    if pubkeys == [] then []
    else
      var rest := PeerIndexes(members, pubkeys[1..]);
      assert forall i :: i in rest <==> exists k :: 1 <= k < |pubkeys| && MemberIdx(members, pubkeys[k]) == Some(i) by {
        assert forall k :: 1 <= k < |pubkeys| ==> pubkeys[k] == pubkeys[1..][k - 1];
      }
      (match MemberIdx(members, pubkeys[0]) case Some(i) => [i] case None => []) + rest
  }

  /** The session members on record after the events: the last event that names them wins. */
  function Recorded(g: Group, id: EventId, events: seq<RoundEvent>): seq<nat> {
    if events == [] then []
    else
      var before := Recorded(g, id, events[..|events| - 1]);
      match Last(events)
      case SessionRejected(hashes, members) => if id in hashes then members else before
      case PeersFailed(senders) => PeerIndexes(g.members, senders)
      case RejectMessage(_, _, _, _, _) => before
  }

  /** The event names the members of the session: a rejected session of this event, or the peers whose answers failed. */
  ghost predicate Names(id: EventId, e: RoundEvent) {
    (e.SessionRejected? && id in e.hashes) || e.PeersFailed?
  }

  lemma {:induction false} NobodyOnRecord(g: Group, id: EventId, events: seq<RoundEvent>)
    requires forall k :: 0 <= k < |events| ==> !Names(id, events[k])
    ensures Recorded(g, id, events) == []
  {
    if events != [] {
      assert !Names(id, events[|events| - 1]);
      NobodyOnRecord(g, id, events[..|events| - 1]);
    }
  }

  /** The last event that names members decides who is on record. */
  lemma {:induction false} RecordedIsLast(g: Group, id: EventId, events: seq<RoundEvent>, k: nat)
    requires k < |events| && Names(id, events[k]) && forall j :: k < j < |events| ==> !Names(id, events[j])
    ensures Recorded(g, id, events)
            == if events[k].PeersFailed? then PeerIndexes(g.members, events[k].senders) else events[k].members
  {
    if k < |events| - 1 {
      assert !Names(id, events[|events| - 1]);
      RecordedIsLast(g, id, events[..|events| - 1], k);
    }
  }

  function Put(refusals: seq<PeerRefusal>, r: PeerRefusal): seq<PeerRefusal> {
    if refusals == [] then [r]
    else if refusals[0].peer == r.peer then [r] + refusals[1..]
    else [refusals[0]] + Put(refusals[1..], r)
  }

  function Said(g: Group, e: RoundEvent): PeerRefusal
    requires e.RejectMessage?
  {
    HeldConfig.PeerRefusal(e.peer, MemberIdx(g.members, e.peer), e.code, e.unlockAt, e.retryAt)
  }

  /** The refusals of this event, one per peer; a peer's later refusal replaces its earlier one. */
  function Refusals(g: Group, id: EventId, events: seq<RoundEvent>): seq<PeerRefusal> {
    if events == [] then []
    else
      var before, e := Refusals(g, id, events[..|events| - 1]), Last(events);
      if e.RejectMessage? && e.sighash == Some(id) then Put(before, Said(g, e)) else before
  }

  lemma {:induction false} PutReplaces(refusals: seq<PeerRefusal>, r: PeerRefusal)
    requires forall i, j :: 0 <= i < j < |refusals| ==> refusals[i].peer != refusals[j].peer
    ensures var u := Put(refusals, r);
            && (forall i, j :: 0 <= i < j < |u| ==> u[i].peer != u[j].peer)
            && (forall x :: x in u <==> x == r || (x in refusals && x.peer != r.peer))
  {
    if refusals != [] && refusals[0].peer != r.peer {
      PutReplaces(refusals[1..], r);
      assert refusals == [refusals[0]] + refusals[1..];
      forall k | 0 <= k < |Put(refusals[1..], r)| ensures Put(refusals[1..], r)[k].peer != refusals[0].peer {
        assert Put(refusals[1..], r)[k] in Put(refusals[1..], r);
      }
    } else if refusals != [] {
      assert refusals == [refusals[0]] + refusals[1..];
    }
  }

  /** A peer keeps its place; a new one comes last. */
  lemma {:induction false} PutKeepsPlaces(refusals: seq<PeerRefusal>, r: PeerRefusal)
    ensures var u := Put(refusals, r);
            |refusals| <= |u| && forall i :: 0 <= i < |refusals| ==> u[i].peer == refusals[i].peer
  {
    if refusals != [] && refusals[0].peer != r.peer {
      PutKeepsPlaces(refusals[1..], r);
      assert forall i :: 1 <= i < |refusals| ==> refusals[i] == refusals[1..][i - 1];
    }
  }

  /** The last refusal of this event among the events by a peer, if any. */
  ghost function LastFrom(g: Group, id: EventId, events: seq<RoundEvent>, peer: string): Option<PeerRefusal> {
    if events == [] then None
    else
      var e := Last(events);
      if e.RejectMessage? && e.sighash == Some(id) && e.peer == peer
      then Some(HeldConfig.PeerRefusal(peer, MemberIdx(g.members, peer), e.code, e.unlockAt, e.retryAt))
      else LastFrom(g, id, events[..|events| - 1], peer)
  }

  /** A round reports each peer once, with the last thing it said about this event, and leaves no peer out. */
  lemma {:induction false} RefusalsAreTheLatest(g: Group, id: EventId, events: seq<RoundEvent>)
    ensures var rs := Refusals(g, id, events);
            && (forall i, j :: 0 <= i < j < |rs| ==> rs[i].peer != rs[j].peer)
            && (forall r :: r in rs <==> LastFrom(g, id, events, r.peer) == Some(r))
  {
    if events != [] {
      RefusalsAreTheLatest(g, id, events[..|events| - 1]);
      var e := Last(events);
      if e.RejectMessage? && e.sighash == Some(id) {
        PutReplaces(Refusals(g, id, events[..|events| - 1]), Said(g, e));
      }
    }
  }

  /** The peer refused for another reason than the nonce, so it knew the nonce. */
  ghost predicate AnsweredPolicy(refusals: seq<PeerRefusal>, idx: nat) {
    exists r :: r in refusals && r.code != HeldConfig.Nonce && r.idx == Some(idx)
  }

  /** The session members a failed round resets: everyone but us who gave no policy refusal. */
  ghost predicate Reset(g: Group, members: seq<nat>, refusals: seq<PeerRefusal>, idx: nat) {
    idx in members && idx != g.self && !AnsweredPolicy(refusals, idx)
  }

  /** How bifrost's sign_batch ended: failed, or with entries of sighash and signature. */
  datatype BatchReply = NotOk | Entries(entries: seq<(EventId, string)>)

  /** One round as seen from outside: how its pings settle, the pool bifrost leaves, the events it emitted, the reply. */
  datatype Round = Round(settle: seq<nat> -> seq<Settlement>, incomingAfter: Incoming, events: seq<RoundEvent>, reply: BatchReply)

  datatype RoundResult = Signed(event: NostrEvent) | NotSigned(refusals: seq<PeerRefusal>)

  function SignatureFor(entries: seq<(EventId, string)>, id: EventId): Option<string> {
    if entries == [] then None
    else if entries[0].0 == id then Some(entries[0].1)
    else SignatureFor(entries[1..], id)
  }

  /** Discards the nonces held from every listed peer that is not exempt. */
  method DiscardFrom(pool: BifrostPool, members: seq<nat>, exempt: set<nat>)
    modifies pool`incoming
    ensures forall i :: At(pool.incoming, i) == if i in members && i !in exempt then {} else At(old(pool.incoming), i)
  {
    for k := 0 to |members|
      invariant forall i :: At(pool.incoming, i) == if i in members[..k] && i !in exempt then {} else At(old(pool.incoming), i)
    {
      assert members[..k + 1] == members[..k] + [members[k]];
      if members[k] !in exempt {
        var _ := pool.DiscardIncoming(members[k]);
      }
    }
    assert members[..|members|] == members;
  }

  /** The reply holds this event's signature. */
  ghost predicate Signs(round: Round, id: EventId) {
    round.reply.Entries? && exists k :: 0 <= k < |round.reply.entries| && round.reply.entries[k].0 == id
  }

  /** The first entry for the event holds this signature. */
  ghost predicate FirstEntry(entries: seq<(EventId, string)>, id: EventId, sig: string) {
    exists k :: 0 <= k < |entries| && entries[k] == (id, sig) && forall j :: 0 <= j < k ==> entries[j].0 != id
  }

  lemma {:induction false} SignatureIsFirst(entries: seq<(EventId, string)>, id: EventId)
    ensures SignatureFor(entries, id).Some? <==> exists k :: 0 <= k < |entries| && entries[k].0 == id
    ensures SignatureFor(entries, id).Some? ==> FirstEntry(entries, id, SignatureFor(entries, id).value)
  {
    if entries != [] && entries[0].0 != id {
      var tail := entries[1..];
      SignatureIsFirst(tail, id);
      assert forall k :: 1 <= k < |entries| ==> entries[k] == tail[k - 1];
      if SignatureFor(tail, id).Some? {
        var sig := SignatureFor(tail, id).value;
        var k :| 0 <= k < |tail| && tail[k] == (id, sig) && forall j :: 0 <= j < k ==> tail[j].0 != id;
        assert entries[k + 1] == (id, sig);
      }
    }
  }

  /** What a round leaves in the pool: a failed one resets its members, any other nothing. */
  ghost predicate LeftBy(g: Group, id: EventId, round: Round, incoming: Incoming) {
    forall i :: At(incoming, i) ==
      if round.reply.NotOk? && Reset(g, Recorded(g, id, round.events), Refusals(g, id, round.events), i) then {}
      else At(round.incomingAfter, i)
  }

  /**
   * How a round ends: with a signature exactly when the reply has one, and then for
   * this very event; otherwise with the refusals of a failed session; and what it leaves.
   */
  ghost predicate Ended(g: Group, event: UnsignedEvent, round: Round, r: RoundResult, incoming: Incoming) {
    && (r.Signed? <==> Signs(round, EventHash(event)))
    && (r.Signed? ==> r.event.event == event && r.event.id == EventHash(event)
                      && FirstEntry(round.reply.entries, EventHash(event), r.event.sig))
    && (r.NotSigned? ==> r.refusals == if round.reply.NotOk? then Refusals(g, EventHash(event), round.events) else [])
    && LeftBy(g, EventHash(event), round, incoming)
  }

  lemma ReplyEnds(g: Group, event: UnsignedEvent, round: Round, entries: seq<(EventId, string)>, sig: Option<string>)
    requires round.reply == Entries(entries) && sig == SignatureFor(entries, EventHash(event))
    ensures var r := if sig.Some? then RoundResult.Signed(NostrEvent(event, EventHash(event), sig.value)) else NotSigned([]);
            Ended(g, event, round, r, round.incomingAfter)
  {
    SignatureIsFirst(entries, EventHash(event));
  }

  lemma FailureEnds(g: Group, event: UnsignedEvent, round: Round, refusals: seq<PeerRefusal>, exempt: set<nat>, incoming: Incoming)
    requires round.reply.NotOk? && refusals == Refusals(g, EventHash(event), round.events)
    requires exempt == {g.self} + set r | r in refusals && r.code != HeldConfig.Nonce && r.idx.Some? :: r.idx.value
    requires forall i ::
               At(incoming, i) == if i in Recorded(g, EventHash(event), round.events) && i !in exempt then {}
                                  else At(round.incomingAfter, i)
    ensures Ended(g, event, round, NotSigned(refusals), incoming)
  {
    assert forall i :: i in exempt <==> i == g.self || AnsweredPolicy(refusals, i);
  }

  /** One round: fresh nonces first, where they lack, then the session with its listeners. */
  method SignRound(g: Group, pool: BifrostPool, event: UnsignedEvent, only: Option<seq<string>>, round: Round)
    returns (r: RoundResult, pinged: seq<nat>)
    requires Settles(round.settle)
    modifies pool`incoming
    ensures pinged == ToPing(pool.cfg, g, only, old(pool.incoming))
    ensures Ended(g, event, round, r, pool.incoming)
  {
    var _, asked, waited := EnsureNonces(pool.cfg, g, only, pool.incoming, round.settle);
    pinged := asked;
    pool.incoming := HeldAfter(pool.incoming, round.settle(pinged), waited);
    var id := EventHash(event);
    var members, refusals := Listen(g, id, round.events);
    pool.incoming := round.incomingAfter;
    match round.reply
    case NotOk =>
      var exempt := {g.self} + set r | r in refusals && !r.code.Nonce? && r.idx.Some? :: r.idx.value;
      DiscardFrom(pool, members, exempt);
      r := NotSigned(refusals);
      FailureEnds(g, event, round, refusals, exempt, pool.incoming);
    case Entries(entries) =>
      var sig := SignatureFor(entries, id);
      r := if sig.Some? then RoundResult.Signed(NostrEvent(event, id, sig.value)) else NotSigned([]);
      ReplyEnds(g, event, round, entries, sig);
  }

  /** The three listeners of a round, over the events emitted meanwhile. */
  method Listen(g: Group, id: EventId, events: seq<RoundEvent>) returns (members: seq<nat>, refusals: seq<PeerRefusal>)
    ensures members == Recorded(g, id, events) && refusals == Refusals(g, id, events)
  {
    members, refusals := [], [];
    for k := 0 to |events|
      invariant members == Recorded(g, id, events[..k]) && refusals == Refusals(g, id, events[..k])
    {
      assert events[..k + 1][..k] == events[..k];
      match events[k]
      case SessionRejected(hashes, named) =>
        if id in hashes { members := named; }
      case PeersFailed(senders) =>
        members := PeerIndexes(g.members, senders);
      case RejectMessage(_, sighash, _, _, _) =>
        if sighash == Some(id) { refusals := Put(refusals, Said(g, events[k])); }
    }
    assert events[..|events|] == events;
  }

  predicate StaleNonce(refusals: seq<PeerRefusal>) {
    exists r :: r in refusals && r.code.Nonce?
  }

  ghost predicate StaleFrom(refusals: seq<PeerRefusal>, idx: nat) {
    exists r :: r in refusals && r.code == HeldConfig.Nonce && r.idx == Some(idx)
  }

  /** The round failed because some peer did not know our nonce. */
  ghost predicate FailedStale(g: Group, id: EventId, round: Round) {
    round.reply.NotOk? && exists r :: r in Refusals(g, id, round.events) && r.code == HeldConfig.Nonce
  }

  /** What the second round starts from: what the first left, without anything from the peers that refused the nonce. */
  ghost predicate StartsSecond(g: Group, id: EventId, first: Round, incoming: Incoming) {
    forall i :: At(incoming, i) ==
      if StaleFrom(Refusals(g, id, first.events), i) || Reset(g, Recorded(g, id, first.events), Refusals(g, id, first.events), i)
      then {} else At(first.incomingAfter, i)
  }

  /** With too few peers able to sign, every askable peer that refused the nonce is pinged. */
  ghost predicate StalePinged(cfg: Config, g: Group, id: EventId, only: Option<seq<string>>, first: Round,
                              start: Incoming, pinged: seq<nat>) {
    TooFew(g, only, Signable(cfg, Askable(g, only, g.peers), start)) ==>
      forall i :: StaleFrom(Refusals(g, id, first.events), i) && i in Askable(g, only, g.peers) ==> i in pinged
  }

  lemma StaleArePinged(cfg: Config, g: Group, id: EventId, only: Option<seq<string>>, first: Round, incoming: Incoming)
    requires StartsSecond(g, id, first, incoming)
    ensures StalePinged(cfg, g, id, only, first, incoming, ToPing(cfg, g, only, incoming))
  {
    forall i | StaleFrom(Refusals(g, id, first.events), i) ensures !CanSign(cfg, incoming, i) {
      assert At(incoming, i) == {};
    }
  }

  /** The second round: the nonces of the peers that refused theirs are discarded first. */
  method SignAgain(g: Group, pool: BifrostPool, event: UnsignedEvent, only: Option<seq<string>>, first: Round, second: Round)
    returns (r: RoundResult, start: Incoming, asked: seq<nat>)
    requires Settles(second.settle) && LeftBy(g, EventHash(event), first, pool.incoming) && first.reply.NotOk?
    modifies pool`incoming
    ensures StartsSecond(g, EventHash(event), first, start) && asked == ToPing(pool.cfg, g, only, start)
    ensures Ended(g, event, second, r, pool.incoming)
    ensures StalePinged(pool.cfg, g, EventHash(event), only, first, start, asked)
  {
    DiscardFrom(pool, StaleIndexes(Refusals(g, EventHash(event), first.events)), {});
    start := pool.incoming;
    StaleArePinged(pool.cfg, g, EventHash(event), only, first, start);
    r, asked := SignRound(g, pool, event, only, second);
  }

  /**
   * cinderella_sign runs one round, and a second one exactly when the first
   * failed with a nonce refusal; `starts` is what is held at the start of each
   * round, `pinged` whom it pings. Before the second round nothing is held any
   * more from a peer with a known index that refused the nonce, so the second
   * round pings each of them it may ask, unless enough others can sign. The
   * result is a signature exactly when the last round's reply has one, and it is
   * for this very event.
   */
  method CinderellaSign(g: Group, pool: BifrostPool, event: UnsignedEvent, only: Option<seq<string>>, first: Round, second: Round)
    returns (r: RoundResult, starts: seq<Incoming>, pinged: seq<seq<nat>>)
    requires Settles(first.settle) && Settles(second.settle)
    modifies pool`incoming
    ensures |starts| == |pinged| == (if FailedStale(g, EventHash(event), first) then 2 else 1)
    ensures starts[0] == old(pool.incoming) && pinged[0] == ToPing(pool.cfg, g, only, starts[0])
    ensures FailedStale(g, EventHash(event), first) ==>
              && StartsSecond(g, EventHash(event), first, starts[1]) && pinged[1] == ToPing(pool.cfg, g, only, starts[1])
              && StalePinged(pool.cfg, g, EventHash(event), only, first, starts[1], pinged[1])
    ensures Ended(g, event, if FailedStale(g, EventHash(event), first) then second else first, r, pool.incoming)
  {
    starts := [pool.incoming];
    var asked: seq<nat>;
    r, asked := SignRound(g, pool, event, only, first);
    pinged := [asked];
    if r.Signed? || !StaleNonce(r.refusals) {
      return;
    }
    var start: Incoming;
    r, start, asked := SignAgain(g, pool, event, only, first, second);
    starts, pinged := starts + [start], pinged + [asked];
  }

  function StaleIndexes(refusals: seq<PeerRefusal>): (r: seq<nat>)
    ensures forall i :: i in r <==> StaleFrom(refusals, i)
  {
    if refusals == [] then []
    else
      assert refusals == [refusals[0]] + refusals[1..];
      (if refusals[0].code.Nonce? && refusals[0].idx.Some? then [refusals[0].idx.value] else []) + StaleIndexes(refusals[1..])
  }
}
