/**
 * Nodes that ping, sign, refuse, restart and resync over a network that may
 * lose, delay, duplicate and replay every message. No nonce is ever signed with twice.
 */
module NonceNetwork {
  import opened Basics
  import opened NoncePool

  datatype Message =
    | Ping(from: nat, to: nat, available: Option<nat>)
    | Pong(from: nat, to: nat, batch: set<Nonce>)
    | SignRequest(from: nat, to: nat, nonce: Nonce)
    | ResetNotice(from: nat, to: nat)

  datatype Signing = Signing(signer: nat, requester: nat, nonce: Nonce)

  /** sent: every message ever sent; any of them may arrive any number of times, or never. */
  datatype Net = Net(nodes: map<nat, Pools>, next: nat, sent: set<Message>, signed: seq<Signing>)

  datatype Step =
    | Restart(node: nat)
    | SendPing(node: nat, peer: nat)
    | SendOldPing(node: nat, peer: nat)
    | SendSign(node: nat, peer: nat, nonce: Nonce)
    | SendReset(node: nat, peer: nat)
    | Discard(node: nat, peer: nat)
    | Arrives(msg: Message, size: nat, allowed: bool)

  function PoolsOf(s: Net, node: nat): Pools {
    if node in s.nodes then s.nodes[node] else EmptyPools
  }

  function SetPools(s: Net, node: nat, p: Pools): Net {
    s.(nodes := s.nodes[node := p])
  }

  /** bifrost's fresh batch: serials nobody has seen. */
  function FreshBatch(owner: nat, next: nat, size: nat): set<Nonce> {
    set i: nat | next <= i < next + size :: Nonce(owner, i)
  }

  /** A responder answers a ping: resync check first, then a fresh batch if bifrost wants to send one. */
  function AnswerPing(cfg: Config, s: Net, m: Message, size: nat): Net
    requires m.Ping?
  {
    var p := ResyncCheck(cfg, PoolsOf(s, m.to), m.from, m.available);
    if cfg.sendMore(At(p.outgoing, m.from)) then
      var batch := FreshBatch(m.to, s.next, size);
      SetPools(s, m.to, Give(p, m.from, batch)).(next := s.next + size, sent := s.sent + {Pong(m.to, m.from, batch)})
    else
      SetPools(s, m.to, p).(sent := s.sent + {Pong(m.to, m.from, {})})
  }

  /** A responder gets a sign request: the policy may refuse it, and an unknown nonce cannot be used. */
  function AnswerSign(s: Net, m: Message, allowed: bool): Net
    requires m.SignRequest?
  {
    var p := PoolsOf(s, m.to);
    var u := SetPools(s, m.to, Spend(p, m.from, m.nonce));
    if allowed && m.nonce in At(p.outgoing, m.from) then u.(signed := s.signed + [Signing(m.to, m.from, m.nonce)]) else u
  }

  function Next(cfg: Config, s: Net, step: Step): Net {
    match step
    case Restart(n) => SetPools(s, n, EmptyPools)
    case SendPing(n, peer) => s.(sent := s.sent + {Ping(n, peer, Some(|At(PoolsOf(s, n).incoming, peer)|))})
    case SendOldPing(n, peer) => s.(sent := s.sent + {Ping(n, peer, None)})
    case SendSign(n, peer, nonce) =>
      if nonce in At(PoolsOf(s, n).incoming, peer)
      then SetPools(s, n, Use(PoolsOf(s, n), peer, nonce)).(sent := s.sent + {SignRequest(n, peer, nonce)}) else s
    case SendReset(n, peer) => s.(sent := s.sent + {ResetNotice(n, peer)})
    case Discard(n, peer) => SetPools(s, n, DropIncoming(PoolsOf(s, n), peer))
    case Arrives(msg, size, allowed) =>
      if msg !in s.sent then s
      else match msg
        case Ping(_, _, _) => AnswerPing(cfg, s, msg, size)
        case Pong(from, to, batch) => SetPools(s, to, Receive(PoolsOf(s, to), from, batch))
        case SignRequest(_, _, _) => AnswerSign(s, msg, allowed)
        case ResetNotice(from, to) => SetPools(s, to, OnReset(PoolsOf(s, to), to, from))
  }

  function Run(cfg: Config, s: Net, steps: seq<Step>): Net {
    if steps == [] then s else Next(cfg, Run(cfg, s, steps[..|steps| - 1]), Last(steps))
  }

  /** A run takes its steps one after the other. */
  lemma RunsInOrder(cfg: Config, s: Net, steps: seq<Step>, step: Step)
    ensures Run(cfg, s, []) == s && Run(cfg, s, steps + [step]) == Next(cfg, Run(cfg, s, steps), step)
  {
    assert (steps + [step])[..|steps|] == steps;
  }

  const Start := Net(map[], 0, {}, [])

  // ------------------------------------------------------------- what a message does

  /** The nonces of `owner` with numbers from next on that nobody has seen, `size` of them. */
  ghost predicate IsFresh(batch: set<Nonce>, owner: nat, next: nat, size: nat) {
    forall x :: x in batch <==> x.owner == owner && next <= x.serial < next + size
  }

  /** Everything between other pairs of nodes is as it was. */
  ghost predicate OthersStay(s: Net, u: Net, n: nat, peer: nat) {
    && (forall a: nat, b: nat :: (a, b) != (peer, n) ==> At(PoolsOf(u, a).outgoing, b) == At(PoolsOf(s, a).outgoing, b))
    && (forall a: nat, b: nat :: (a, b) != (n, peer) ==> At(PoolsOf(u, a).incoming, b) == At(PoolsOf(s, a).incoming, b))
    && u.signed == s.signed
  }

  /** A ping, its arrival, and the arrival of its answer with this batch. */
  function Exchange(cfg: Config, s: Net, n: nat, peer: nat, size: nat, batch: set<Nonce>): Net {
    var a := Next(cfg, s, SendPing(n, peer));
    var b := Next(cfg, a, Arrives(Ping(n, peer, Some(|At(PoolsOf(s, n).incoming, peer)|)), size, true));
    Next(cfg, b, Arrives(Pong(peer, n, batch), 0, true))
  }

  /** What the responder still counts for the requester after a ping that reports what it holds. */
  function KeptFor(cfg: Config, held: set<Nonce>, given: set<Nonce>): set<Nonce> {
    if |held| <= cfg.critical && !cfg.sendMore(given) then {} else given
  }

  lemma PingArrives(cfg: Config, s: Net, n: nat, peer: nat, size: nat, held: set<Nonce>, given: set<Nonce>) returns (batch: set<Nonce>)
    requires held == At(PoolsOf(s, n).incoming, peer) && given == At(PoolsOf(s, peer).outgoing, n)
    ensures var a := Next(cfg, s, SendPing(n, peer));
            var u := Next(cfg, a, Arrives(Ping(n, peer, Some(|held|)), size, true));
            var more := cfg.sendMore(KeptFor(cfg, held, given));
            && (if more then IsFresh(batch, peer, s.next, size) && u.next == s.next + size else batch == {} && u.next == s.next)
            && Pong(peer, n, batch) in u.sent && At(PoolsOf(u, peer).outgoing, n) == KeptFor(cfg, held, given) + batch
            && PoolsOf(u, n).incoming == PoolsOf(s, n).incoming && OthersStay(s, u, n, peer)
  {
    batch := if cfg.sendMore(KeptFor(cfg, held, given)) then FreshBatch(peer, s.next, size) else {};
    FreshIs(peer, s.next, size);
    AnswerIs(cfg, Next(cfg, s, SendPing(n, peer)), n, peer, size, held, given, batch);
  }

  lemma FreshIs(owner: nat, next: nat, size: nat)
    ensures IsFresh(FreshBatch(owner, next, size), owner, next, size)
  {
    forall x: Nonce | x.owner == owner && next <= x.serial < next + size ensures x in FreshBatch(owner, next, size) {
      assert x == Nonce(owner, x.serial);
    }
  }

  lemma GivenOnlyTo(s: Net, u: Net, n: nat, peer: nat, p: Pools)
    requires u.nodes == s.nodes[peer := p] && u.signed == s.signed && p.incoming == PoolsOf(s, peer).incoming
    requires forall q: nat :: q != n ==> At(p.outgoing, q) == At(PoolsOf(s, peer).outgoing, q)
    ensures OthersStay(s, u, n, peer) && PoolsOf(u, peer) == p && forall q: nat :: PoolsOf(u, q).incoming == PoolsOf(s, q).incoming
  {
  }

  lemma CheckKeeps(cfg: Config, p: Pools, n: nat, held: set<Nonce>)
    ensures var r := ResyncCheck(cfg, p, n, Some(|held|));
            && r.incoming == p.incoming && At(r.outgoing, n) == KeptFor(cfg, held, At(p.outgoing, n))
            && forall q: nat :: q != n ==> At(r.outgoing, q) == At(p.outgoing, q)
  {
  }

  lemma AnswerIs(cfg: Config, s: Net, n: nat, peer: nat, size: nat, held: set<Nonce>, given: set<Nonce>, batch: set<Nonce>)
    requires given == At(PoolsOf(s, peer).outgoing, n)
    requires batch == if cfg.sendMore(KeptFor(cfg, held, given)) then FreshBatch(peer, s.next, size) else {}
    ensures var u := AnswerPing(cfg, s, Ping(n, peer, Some(|held|)), size);
            && u.next == s.next + (if cfg.sendMore(KeptFor(cfg, held, given)) then size else 0) && u.sent == s.sent + {Pong(peer, n, batch)}
            && At(PoolsOf(u, peer).outgoing, n) == KeptFor(cfg, held, given) + batch
            && (forall q: nat :: PoolsOf(u, q).incoming == PoolsOf(s, q).incoming) && OthersStay(s, u, n, peer)
  {
    CheckKeeps(cfg, PoolsOf(s, peer), n, held);
    var p := ResyncCheck(cfg, PoolsOf(s, peer), n, Some(|held|));
    var u := AnswerPing(cfg, s, Ping(n, peer, Some(|held|)), size);
    GivenOnlyTo(s, u, n, peer, if cfg.sendMore(At(p.outgoing, n)) then Give(p, n, batch) else p);
  }

  lemma PongArrives(cfg: Config, s: Net, n: nat, peer: nat, batch: set<Nonce>)
    requires Pong(peer, n, batch) in s.sent
    ensures var u := Next(cfg, s, Arrives(Pong(peer, n, batch), 0, true));
            && At(PoolsOf(u, n).incoming, peer) == At(PoolsOf(s, n).incoming, peer) + batch
            && u.next == s.next && OthersStay(s, u, n, peer) && forall q: nat :: PoolsOf(u, q).outgoing == PoolsOf(s, q).outgoing
  {
  }

  /**
   * A whole ping. The responder forgets what it counted for the requester exactly
   * if that reports too few nonces to sign with and no more would be sent
   * otherwise; then, if more are due, fresh ones are counted here and held there.
   */
  lemma PingRefills(cfg: Config, s: Net, n: nat, peer: nat, size: nat, held: set<Nonce>, given: set<Nonce>) returns (batch: set<Nonce>)
    requires held == At(PoolsOf(s, n).incoming, peer) && given == At(PoolsOf(s, peer).outgoing, n)
    ensures var u := Exchange(cfg, s, n, peer, size, batch);
            var kept := if |held| <= cfg.critical && !cfg.sendMore(given) then {} else given;
            && (if cfg.sendMore(kept) then IsFresh(batch, peer, s.next, size) && u.next == s.next + size else batch == {} && u.next == s.next)
            && At(PoolsOf(u, peer).outgoing, n) == kept + batch && At(PoolsOf(u, n).incoming, peer) == held + batch
            && OthersStay(s, u, n, peer)
  {
    batch := PingArrives(cfg, s, n, peer, size, held, given);
    PongArrives(cfg, Next(cfg, Next(cfg, s, SendPing(n, peer)), Arrives(Ping(n, peer, Some(|held|)), size, true)), n, peer, batch);
  }

  /** A ping without a status, as older requesters send it: nothing is discarded for it. */
  lemma OldPingDiscardsNothing(cfg: Config, s: Net, n: nat, peer: nat, size: nat)
    ensures var a := Next(cfg, s, SendOldPing(n, peer));
            var u := Next(cfg, a, Arrives(Ping(n, peer, None), size, true));
            && Ping(n, peer, None) in a.sent
            && forall q, p: nat :: At(PoolsOf(s, q).outgoing, p) <= At(PoolsOf(u, q).outgoing, p)
  {
  }

  /**
   * A signature asked for with a nonce that is held: the requester holds it no
   * more, and the responder counts it no more, whether it allows the signature or
   * refuses it; it signs exactly if it allows it and counted the nonce.
   */
  lemma SignatureRound(cfg: Config, s: Net, n: nat, peer: nat, x: Nonce, size: nat, allowed: bool)
    requires x in At(PoolsOf(s, n).incoming, peer)
    ensures var a := Next(cfg, s, SendSign(n, peer, x));
            var u := Next(cfg, a, Arrives(SignRequest(n, peer, x), size, allowed));
            && At(PoolsOf(u, n).incoming, peer) == At(PoolsOf(s, n).incoming, peer) - {x}
            && At(PoolsOf(u, peer).outgoing, n) == At(PoolsOf(s, peer).outgoing, n) - {x}
            && u.signed == s.signed + if allowed && x in At(PoolsOf(s, peer).outgoing, n) then [Signing(peer, n, x)] else []
  {
  }

  /** Nothing is asked for with a nonce that is not held. */
  lemma NothingToSignWith(cfg: Config, s: Net, n: nat, peer: nat, x: Nonce)
    requires x !in At(PoolsOf(s, n).incoming, peer)
    ensures Next(cfg, s, SendSign(n, peer, x)) == s
  {
  }

  /** A restart empties a node's pools; its notice empties what a peer holds of it and counts for it, and nothing else. */
  lemma RestartAndNotice(cfg: Config, s: Net, n: nat, peer: nat, size: nat, allowed: bool)
    requires n != peer
    ensures var a := Next(cfg, Next(cfg, s, Restart(n)), SendReset(n, peer));
            var u := Next(cfg, a, Arrives(ResetNotice(n, peer), size, allowed));
            && (forall q: nat :: At(PoolsOf(u, n).incoming, q) == {} && At(PoolsOf(u, n).outgoing, q) == {})
            && (forall q: nat :: At(PoolsOf(u, peer).incoming, q) == if q == n then {} else At(PoolsOf(s, peer).incoming, q))
            && (forall q: nat :: At(PoolsOf(u, peer).outgoing, q) == if q == n then {} else At(PoolsOf(s, peer).outgoing, q))
            && u.signed == s.signed
  {
  }

  /** A node does not take its own notice. */
  lemma OwnNoticeIgnored(cfg: Config, s: Net, n: nat, size: nat, allowed: bool)
    ensures var a := Next(cfg, s, SendReset(n, n));
            forall q: nat :: PoolsOf(Next(cfg, a, Arrives(ResetNotice(n, n), size, allowed)), q) == PoolsOf(s, q)
  {
  }

  /** Discarding what is held from a peer touches nothing else. */
  lemma DiscardDrops(cfg: Config, s: Net, n: nat, peer: nat)
    ensures var u := Next(cfg, s, Discard(n, peer));
            At(PoolsOf(u, n).incoming, peer) == {} && OthersStay(s, u, n, peer)
            && At(PoolsOf(u, peer).outgoing, n) == At(PoolsOf(s, peer).outgoing, n)
  {
  }

  /** Only what was sent arrives. */
  lemma NothingFromNowhere(cfg: Config, s: Net, m: Message, size: nat, allowed: bool)
    requires m !in s.sent
    ensures Next(cfg, s, Arrives(m, size, allowed)) == s
  {
  }

  ghost predicate Outstanding(s: Net, node: nat, peer: nat, x: Nonce) {
    x in At(PoolsOf(s, node).outgoing, peer)
  }

  ghost predicate Inv(s: Net) {
    && (forall n: nat, p: nat, x :: Outstanding(s, n, p, x) ==> x.owner == n && x.serial < s.next)
    && (forall n: nat, p: nat, q: nat, x :: Outstanding(s, n, p, x) && Outstanding(s, n, q, x) ==> p == q)
    && (forall k :: 0 <= k < |s.signed| ==> s.signed[k].nonce.owner == s.signed[k].signer && s.signed[k].nonce.serial < s.next)
    && (forall k, n: nat, p: nat :: 0 <= k < |s.signed| ==> !Outstanding(s, n, p, s.signed[k].nonce))
    && (forall k, l :: 0 <= k < l < |s.signed| ==> s.signed[k].nonce != s.signed[l].nonce)
  }

  /** A nonce enters an outgoing pool only in the answer to a ping, for the asking peer, and it never existed before. */
  lemma OnlyFreshNoncesEnter(cfg: Config, s: Net, step: Step, node: nat, peer: nat, x: Nonce)
    requires Outstanding(Next(cfg, s, step), node, peer, x) && !Outstanding(s, node, peer, x)
    ensures x.owner == node && s.next <= x.serial < Next(cfg, s, step).next
    ensures step.Arrives? && step.msg.Ping? && step.msg.to == node && step.msg.from == peer
  {
  }

  /** A node signs only with a nonce it counts as outstanding for that requester, and spends it by that. */
  lemma SigningSpends(cfg: Config, s: Net, step: Step)
    ensures s.next <= Next(cfg, s, step).next
    ensures Next(cfg, s, step).signed == s.signed ||
      (step.Arrives? && step.msg.SignRequest? && Outstanding(s, step.msg.to, step.msg.from, step.msg.nonce)
       && !Outstanding(Next(cfg, s, step), step.msg.to, step.msg.from, step.msg.nonce)
       && Next(cfg, s, step).signed == s.signed + [Signing(step.msg.to, step.msg.from, step.msg.nonce)])
  {
  }

  lemma StepKeepsInv(cfg: Config, s: Net, step: Step)
    requires Inv(s)
    ensures Inv(Next(cfg, s, step))
  {
    var u := Next(cfg, s, step);
    SigningSpends(cfg, s, step);
    forall n: nat, p: nat, x | Outstanding(u, n, p, x) && !Outstanding(s, n, p, x)
      ensures x.owner == n && s.next <= x.serial < u.next && step.Arrives? && step.msg.Ping? && step.msg.to == n && step.msg.from == p
    {
      OnlyFreshNoncesEnter(cfg, s, step, n, p, x);
    }
    forall k, n: nat, p: nat | 0 <= k < |u.signed| ensures !Outstanding(u, n, p, u.signed[k].nonce) {
      var x := u.signed[k].nonce;
      if Outstanding(u, n, p, x) && !Outstanding(s, n, p, x) {
        OnlyFreshNoncesEnter(cfg, s, step, n, p, x);
      }
    }
  }

  lemma {:induction false} RunKeepsInv(cfg: Config, steps: seq<Step>)
    ensures Inv(Run(cfg, Start, steps))
  {
    if steps != [] {
      RunKeepsInv(cfg, steps[..|steps| - 1]);
      StepKeepsInv(cfg, Run(cfg, Start, steps[..|steps| - 1]), Last(steps));
    }
  }

  /** Over every run, no two signatures use the same nonce, and each is made by the node that made the nonce. */
  lemma NonceSignsOnce(cfg: Config, steps: seq<Step>, k: nat, l: nat)
    requires k < l < |Run(cfg, Start, steps).signed|
    ensures var signed := Run(cfg, Start, steps).signed;
            signed[k].nonce != signed[l].nonce && signed[k].signer == signed[k].nonce.owner
  {
    RunKeepsInv(cfg, steps);
  }

  ghost predicate Gone(s: Net, node: nat, x: Nonce) {
    x.serial < s.next && forall p: nat :: !Outstanding(s, node, p, x)
  }

  /** A nonce a node counts for nobody stays that way, and the node does not sign with it. */
  lemma GoneStays(cfg: Config, s: Net, step: Step, node: nat, x: Nonce)
    requires Gone(s, node, x)
    ensures var u := Next(cfg, s, step);
            && Gone(u, node, x) && |s.signed| <= |u.signed| && u.signed[..|s.signed|] == s.signed
            && forall k :: |s.signed| <= k < |u.signed| && u.signed[k].signer == node ==> u.signed[k].nonce != x
  {
    SigningSpends(cfg, s, step);
    forall p: nat ensures !Outstanding(Next(cfg, s, step), node, p, x) {
      if Outstanding(Next(cfg, s, step), node, p, x) { OnlyFreshNoncesEnter(cfg, s, step, node, p, x); }
    }
  }

  /** A nonce that was signed with, spent by a refusal, or discarded is never signed with later. */
  lemma {:induction false} GoneIsGone(cfg: Config, before: seq<Step>, more: seq<Step>, node: nat, x: Nonce)
    requires Gone(Run(cfg, Start, before), node, x)
    ensures var s, u := Run(cfg, Start, before), Run(cfg, Start, before + more);
            && Gone(u, node, x) && |s.signed| <= |u.signed|
            && forall k :: |s.signed| <= k < |u.signed| && u.signed[k].signer == node ==> u.signed[k].nonce != x
  {
    if more == [] {
      assert before + more == before;
    } else {
      var front := more[..|more| - 1];
      GoneIsGone(cfg, before, front, node, x);
      assert (before + more)[..|before + more| - 1] == before + front;
      var t := Run(cfg, Start, before + front);
      GoneStays(cfg, t, Last(more), node, x);
      forall k | 0 <= k < |t.signed| ensures Next(cfg, t, Last(more)).signed[k] == t.signed[k] {
        assert Next(cfg, t, Last(more)).signed[..|t.signed|][k] == t.signed[k];
      }
    }
  }
}
