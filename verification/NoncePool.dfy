/**
 * bifrost's nonce pools as src/cinderella/resync.ts reaches into them. A pool
 * keeps, per peer, the nonces given to it (outgoing) and received from it
 * (incoming). What is assumed of bifrost: batches are fresh, spending a nonce
 * removes it, and with nothing outgoing for a peer it sends that peer more.
 */
module NoncePool {
  import opened Basics

  datatype Nonce = Nonce(owner: nat, serial: nat)

  datatype Pools = Pools(outgoing: map<nat, set<Nonce>>, incoming: map<nat, set<Nonce>>)

  /** critical: at or below this many a requester cannot sign. sendMore: should_send_nonces_to, from what is outgoing. */
  datatype Config = Config(critical: nat, sendMore: set<Nonce> -> bool) {
    ghost predicate Valid() { sendMore({}) }
  }

  const EmptyPools := Pools(map[], map[])

  function At<T>(m: map<nat, set<T>>, peer: nat): set<T> {
    if peer in m then m[peer] else {}
  }

  // ---------------------------------------------------------------- the actions

  function DropOutgoing(p: Pools, peer: nat): (r: Pools)
    ensures r.incoming == p.incoming
    ensures forall q :: At(r.outgoing, q) == if q == peer then {} else At(p.outgoing, q)
  {
    p.(outgoing := p.outgoing - {peer})
  }

  function DropIncoming(p: Pools, peer: nat): (r: Pools)
    ensures r.outgoing == p.outgoing
    ensures forall q :: At(r.incoming, q) == if q == peer then {} else At(p.incoming, q)
  {
    p.(incoming := p.incoming - {peer})
  }

  function Spend(p: Pools, peer: nat, nonce: Nonce): (r: Pools)
    ensures r.incoming == p.incoming
    ensures forall q :: At(r.outgoing, q) == if q == peer then At(p.outgoing, q) - {nonce} else At(p.outgoing, q)
  {
    if peer in p.outgoing then p.(outgoing := p.outgoing[peer := p.outgoing[peer] - {nonce}]) else p
  }

  function Give(p: Pools, peer: nat, batch: set<Nonce>): (r: Pools)
    ensures r.incoming == p.incoming
    ensures forall q :: At(r.outgoing, q) == if q == peer then At(p.outgoing, q) + batch else At(p.outgoing, q)
  {
    p.(outgoing := p.outgoing[peer := At(p.outgoing, peer) + batch])
  }

  function Receive(p: Pools, peer: nat, batch: set<Nonce>): (r: Pools)
    ensures r.outgoing == p.outgoing
    ensures forall q :: At(r.incoming, q) == if q == peer then At(p.incoming, q) + batch else At(p.incoming, q)
  {
    p.(incoming := p.incoming[peer := At(p.incoming, peer) + batch])
  }

  function Use(p: Pools, peer: nat, nonce: Nonce): (r: Pools)
    ensures r.outgoing == p.outgoing
    ensures forall q :: At(r.incoming, q) == if q == peer then At(p.incoming, q) - {nonce} else At(p.incoming, q)
  {
    if peer in p.incoming then p.(incoming := p.incoming[peer := p.incoming[peer] - {nonce}]) else p
  }

  /**
   * The two sides disagree to the point of standstill: the requester reports too
   * few nonces to sign with, the responder counts so many given that it sends none.
   */
  predicate Stuck(cfg: Config, outgoing: set<Nonce>, available: Option<nat>) {
    available.Some? && available.value <= cfg.critical && !cfg.sendMore(outgoing)
  }

  /** attach_responder_resync: runs before the ping reply is built. */
  function ResyncCheck(cfg: Config, p: Pools, requester: nat, available: Option<nat>): Pools {
    if Stuck(cfg, At(p.outgoing, requester), available) then DropOutgoing(p, requester) else p
  }

  /** attach_nonce_reset: on a peer's notice both directions between it and self are emptied. */
  function OnReset(p: Pools, self: nat, peer: nat): Pools {
    if peer == self then p else DropOutgoing(DropIncoming(p, peer), peer)
  }

  /** q holds nothing p did not hold, in either direction. */
  ghost predicate OnlyRemoves(p: Pools, q: Pools) {
    forall peer :: At(q.outgoing, peer) <= At(p.outgoing, peer) && At(q.incoming, peer) <= At(p.incoming, peer)
  }

  /** Every repair discards: none of them ever adds a nonce to a pool. */
  lemma RepairsOnlyDiscard(cfg: Config, p: Pools, self: nat, peer: nat, available: Option<nat>, nonce: Nonce)
    ensures OnlyRemoves(p, ResyncCheck(cfg, p, peer, available))
    ensures OnlyRemoves(p, OnReset(p, self, peer))
    ensures OnlyRemoves(p, DropIncoming(p, peer)) && OnlyRemoves(p, Spend(p, peer, nonce))
  {
  }

  /** Whatever the responder counts, a ping that reports at most critical nonces leaves it due to send a fresh batch. */
  lemma PingUnsticks(cfg: Config, p: Pools, requester: nat, available: nat)
    requires cfg.Valid() && available <= cfg.critical
    ensures cfg.sendMore(At(ResyncCheck(cfg, p, requester, Some(available)).outgoing, requester))
  {
  }

  // ------------------------------------------------------------ the pool as an object

  class BifrostPool {
    const cfg: Config
    const self: nat
    var outgoing: map<nat, set<Nonce>>
    var incoming: map<nat, set<Nonce>>

    constructor (cfg: Config, self: nat)
      ensures this.cfg == cfg && this.self == self && View() == EmptyPools
    {
      this.cfg, this.self, outgoing, incoming := cfg, self, map[], map[];
    }

    function View(): Pools
      reads this
    {
      Pools(outgoing, incoming)
    }

    method DiscardIncoming(peer: nat) returns (n: nat)
      modifies this`incoming
      ensures View() == DropIncoming(old(View()), peer) && n == |At(old(incoming), peer)|
    {
      n := |At(incoming, peer)|;
      incoming := incoming - {peer};
    }

    method DiscardOutgoing(peer: nat) returns (n: nat)
      modifies this`outgoing
      ensures View() == DropOutgoing(old(View()), peer) && n == |At(old(outgoing), peer)|
    {
      n := |At(outgoing, peer)|;
      outgoing := outgoing - {peer};
    }

    /** '/ping/handler/req': requester is None for a sender that is no member, available for an older requester. */
    method OnPingRequest(requester: Option<nat>, available: Option<nat>)
      modifies this`outgoing
      ensures View() == if requester.Some? then ResyncCheck(cfg, old(View()), requester.value, available) else old(View())
      ensures forall q: nat :: At(outgoing, q) ==
                if requester == Some(q) && available.Some? && available.value <= cfg.critical && !cfg.sendMore(At(old(outgoing), q))
                then {} else At(old(outgoing), q)
      ensures cfg.Valid() && requester.Some? && available.Some? && available.value <= cfg.critical ==>
                cfg.sendMore(At(outgoing, requester.value))
    {
      if requester.None? || available.None? {
        return;
      }
      if available.value <= cfg.critical && !cfg.sendMore(At(outgoing, requester.value)) {
        var _ := DiscardOutgoing(requester.value);
      }
    }

    /** spend_refused_nonce: code is the session's nonce of ours, if it names one. */
    method SpendRefused(requester: Option<nat>, code: Option<Nonce>)
      modifies this`outgoing
      ensures View() == if requester.Some? && code.Some? then Spend(old(View()), requester.value, code.value) else old(View())
      ensures forall q: nat, x :: x in At(outgoing, q) <==> x in At(old(outgoing), q) && !(requester == Some(q) && code == Some(x))
    {
      if requester.Some? && code.Some? && requester.value in outgoing {
        outgoing := outgoing[requester.value := outgoing[requester.value] - {code.value}];
      }
    }

    method OnPeerReset(peer: Option<nat>)
      modifies this
      ensures View() == if peer.Some? then OnReset(old(View()), self, peer.value) else old(View())
      ensures forall q: nat :: At(incoming, q) == if peer == Some(q) && q != self then {} else At(old(incoming), q)
      ensures forall q: nat :: At(outgoing, q) == if peer == Some(q) && q != self then {} else At(old(outgoing), q)
    {
      if peer.None? || peer.value == self {
        return;
      }
      var _ := DiscardIncoming(peer.value);
      var _ := DiscardOutgoing(peer.value);
    }
  }
}
