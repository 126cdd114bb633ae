/**
 * Per-peer send/receive policies (src/frostr/policy.ts): four views of them, in
 * the node's config list, its peer objects, the summaries and the two queries.
 */
module PeerPolicy {
  import opened Basics
  import opened InsertionMap
  import opened Sorting

  datatype Result<T> = Ok(value: T) | Err(error: PolicyError)
  datatype PolicyError = BadInput | Missing | BadNpub | NotHex | NoConfig

  datatype Policy = Policy(send: bool, recv: bool)

  const AllowAll := Policy(true, true)

  /** A policy as given by a caller; Malformed stands for what the input schema rejects. */
  datatype PolicyInput =
    | Malformed
    | Input(pubkey: string, allowSend: Option<bool>, allowReceive: Option<bool>,
            send: Option<bool>, recv: Option<bool>, nested: Option<(Option<bool>, Option<bool>)>)

  datatype PeerConfig = PeerConfig(pubkey: string, policy: Option<Policy>)
  datatype Peer = Peer(pubkey: string, policy: Option<Policy>)

  /** A bifrost node, as far as policies go; a node may have no config, and no policies or peers count as empty lists. */
  datatype Node = Node(config: Option<seq<PeerConfig>>, peers: seq<Peer>)

  datatype Summary = Summary(pubkey: string, policy: Policy)

  // --------------------------------------------------------------------------- pubkeys

  predicate HexDigit(c: char) {
    '0' <= c <= '9' || 'a' <= c <= 'f' || 'A' <= c <= 'F'
  }

  predicate Hex64(s: string) {
    |s| == 64 && forall i :: 0 <= i < |s| ==> HexDigit(s[i])
  }

  predicate Compressed(s: string) {
    |s| == 66 && (s[..2] == "02" || s[..2] == "03") && Hex64(s[2..])
  }

  function LowerChar(c: char): char {
    if 'A' <= c <= 'Z' then c + ' ' else c
  }

  function Lower(s: string): string {
    seq(|s|, i requires 0 <= i < |s| => LowerChar(s[i]))
  }

  /** The strict normaliser; `npub` decodes a bech32 key, or fails. */
  function Strict(npub: string -> Option<string>, pubkey: string): Result<string> {
    if pubkey == "" then Err(Missing)
    else
      var trimmed := Trim(pubkey);
      if "npub" <= trimmed && npub(trimmed).None? then Err(BadNpub)
      else
        var decoded := if "npub" <= trimmed then npub(trimmed).value else trimmed;
        var key := if Compressed(decoded) then decoded[2..] else decoded;
        if Hex64(key) then Ok(Lower(key)) else Err(NotHex)
  }

  /** The forgiving normaliser used on keys already inside the node. */
  function Loose(pubkey: string): string {
    var trimmed := Trim(pubkey);
    if Hex64(trimmed) then Lower(trimmed)
    else if Compressed(trimmed) then Lower(trimmed[2..])
    else Lower(trimmed)
  }

  ghost predicate Canonical(k: string) {
    Hex64(k) && Lower(k) == k
  }

  /** A hexadecimal digit and its lower-case form. */
  ghost predicate Digit(c: char, d: char) {
    || (c == d && c in "0123456789abcdef")
    || exists n :: 0 <= n < 6 && c == "ABCDEF"[n] && d == "abcdef"[n]
  }

  ghost predicate Digits(s: string, k: string) {
    |s| == |k| == 64 && forall i :: 0 <= i < 64 ==> Digit(s[i], k[i])
  }

  /** k is what the 64 digits of s are in lower case; s may carry the two characters of a compressed key before them. */
  ghost predicate KeyIn(s: string, k: string) {
    Digits(s, k) || (|s| == 66 && s[0] == '0' && (s[1] == '2' || s[1] == '3') && Digits(s[2..], k))
  }

  lemma DigitIs(c: char)
    ensures HexDigit(c) ==> Digit(c, LowerChar(c))
    ensures forall d :: Digit(c, d) ==> HexDigit(c) && d == LowerChar(c)
  {
    var lower, upper := "0123456789abcdef", "ABCDEF";
    if '0' <= c <= '9' {
      assert lower[c as int - '0' as int] == c;
    } else if 'a' <= c <= 'f' {
      assert lower[c as int - 'a' as int + 10] == c;
    } else if 'A' <= c <= 'F' {
      assert upper[c as int - 'A' as int] == c && "abcdef"[c as int - 'A' as int] == LowerChar(c);
    }
  }

  lemma DigitsAre(s: string, k: string)
    ensures Digits(s, k) <==> Hex64(s) && k == Lower(s)
  {
    forall i | 0 <= i < |s|
      ensures HexDigit(s[i]) ==> Digit(s[i], LowerChar(s[i]))
      ensures forall d :: Digit(s[i], d) ==> HexDigit(s[i]) && d == LowerChar(s[i])
    {
      DigitIs(s[i]);
    }
  }

  lemma KeyInIs(s: string, k: string)
    ensures KeyIn(s, k) <==> (Hex64(s) && k == Lower(s)) || (Compressed(s) && k == Lower(s[2..]))
  {
    DigitsAre(s, k);
    if |s| == 66 {
      DigitsAre(s[2..], k);
      assert s[..2] == [s[0], s[1]];
    }
  }

  /**
   * The strict normaliser accepts, after trimming and decoding an npub, exactly
   * the keys of 64 digits, bare or compressed, and yields their lower case; it
   * says what is wrong with any other.
   */
  lemma StrictIs(npub: string -> Option<string>, pubkey: string, k: string)
    ensures var t := Trim(pubkey);
            var bech := |t| >= 4 && t[..4] == "npub";
            && (Strict(npub, pubkey) == Ok(k) <==>
                  pubkey != "" && if bech then npub(t).Some? && KeyIn(npub(t).value, k) else KeyIn(t, k))
            && (Strict(npub, pubkey) == Err(Missing) <==> pubkey == "")
            && (Strict(npub, pubkey) == Err(BadNpub) <==> pubkey != "" && bech && npub(t).None?)
  {
    var t := Trim(pubkey);
    assert "npub" <= t <==> |t| >= 4 && t[..4] == "npub";
    KeyInIs(t, k);
    if npub(t).Some? {
      KeyInIs(npub(t).value, k);
    }
  }

  /** An accepted key is 64 lower-case digits. */
  lemma StrictIsCanonical(npub: string -> Option<string>, pubkey: string)
    ensures Strict(npub, pubkey).Ok? ==>
              var k := Strict(npub, pubkey).value;
              Canonical(k) && |k| == 64 && forall i :: 0 <= i < 64 ==> k[i] in "0123456789abcdef"
  {
    if Strict(npub, pubkey).Ok? {
      var k := Strict(npub, pubkey).value;
      StrictIs(npub, pubkey, k);
      DigitsAre(k, k);
    }
  }

  /** The forgiving normaliser yields the same for a key of 64 digits, and for anything else its letters in lower case. */
  lemma LooseIs(pubkey: string, k: string)
    ensures KeyIn(Trim(pubkey), k) ==> Loose(pubkey) == k
    ensures var t := Trim(pubkey);
            (forall x :: !KeyIn(t, x)) ==>
              |Loose(pubkey)| == |t| && forall i :: 0 <= i < |t| ==>
                Loose(pubkey)[i] == if 'A' <= t[i] <= 'Z' then (t[i] as int + 32) as char else t[i]
  {
    var t := Trim(pubkey);
    KeyInIs(t, k);
    KeyInIs(t, Lower(t));
    if Compressed(t) {
      KeyInIs(t, Lower(t[2..]));
    }
  }

  /** What the strict normaliser yields, the forgiving one leaves alone. */
  lemma LooseKeepsCanonical(k: string)
    requires Canonical(k)
    ensures Loose(k) == k
  {
    assert HexDigit(k[0]) && HexDigit(Last(k));
  }

  /** The two normalisers name a peer alike, unless the key is an npub, which only the strict one decodes. */
  lemma NormalisersAgree(npub: string -> Option<string>, pubkey: string)
    requires Strict(npub, pubkey).Ok? && !("npub" <= Trim(pubkey))
    ensures Loose(pubkey) == Strict(npub, pubkey).value
  {
  }

  // ---------------------------------------------------------------------------- inputs

  function Else<T>(o: Option<T>, d: T): T {
    if o.Some? then o.value else d
  }

  function First(a: Option<bool>, b: Option<bool>, c: Option<bool>): bool {
    if a.Some? then a.value else if b.Some? then b.value else Else(c, true)
  }

  /** One input: the key it is about and the policy it sets. */
  function Normalize(npub: string -> Option<string>, p: PolicyInput): Result<(string, Policy)> {
    if p.Malformed? then Err(BadInput)
    else match Strict(npub, p.pubkey)
      case Err(e) => Err(e)
      case Ok(key) =>
        Ok((key, Policy(First(p.allowSend, p.send, if p.nested.Some? then p.nested.value.0 else None),
                        First(p.allowReceive, p.recv, if p.nested.Some? then p.nested.value.1 else None))))
  }

  /** The value is the first of these that is given, or true. */
  ghost predicate FirstGiven(r: bool, own: Option<bool>, short: Option<bool>, nested: Option<bool>) {
    && (own.Some? ==> r == own.value) && (own.None? && short.Some? ==> r == short.value)
    && (own.None? && short.None? && nested.Some? ==> r == nested.value)
    && (own.None? && short.None? && nested.None? ==> r)
  }

  /** An input that is well formed and names a key sets for it, in each direction, the first value it gives. */
  lemma InputSets(npub: string -> Option<string>, p: PolicyInput)
    ensures p.Malformed? ==> Normalize(npub, p) == Err(BadInput)
    ensures p.Input? && Strict(npub, p.pubkey).Err? ==> Normalize(npub, p) == Err(Strict(npub, p.pubkey).error)
    ensures p.Input? && Strict(npub, p.pubkey).Ok? ==>
              var r := Normalize(npub, p);
              && r.Ok? && r.value.0 == Strict(npub, p.pubkey).value
              && FirstGiven(r.value.1.send, p.allowSend, p.send, if p.nested.Some? then p.nested.value.0 else None)
              && FirstGiven(r.value.1.recv, p.allowReceive, p.recv, if p.nested.Some? then p.nested.value.1 else None)
  {
  }

  type Parsed = Result<(string, Policy)>

  function ParseAll(npub: string -> Option<string>, ps: seq<PolicyInput>): seq<Parsed> {
    seq(|ps|, i requires 0 <= i < |ps| => Normalize(npub, ps[i]))
  }

  /** The inputs of one call by key, or the error of the first bad one. */
  function Collect(es: seq<Parsed>): (r: Result<Map<Policy>>)
    ensures r.Ok? ==> Consistent(r.value)
  {
    if es == [] then Ok(Map([], map[]))
    else match Collect(es[..|es| - 1])
      case Err(e) => Err(e)
      case Ok(m) =>
        match Last(es)
        case Err(e) => Err(e)
        case Ok((key, policy)) => Ok(Put(m, key, policy))
  }

  // ----------------------------------------------------------------------------- views

  /** collectPolicyMapFromConfig: the config list by key, the last of equal keys winning. */
  function ConfigMap(cs: seq<PeerConfig>): (m: Map<Policy>)
    ensures Consistent(m)
  {
    if cs == [] then Map([], map[])
    else Put(ConfigMap(cs[..|cs| - 1]), Loose(Last(cs).pubkey), Else(Last(cs).policy, AllowAll))
  }

  function NodeMap(n: Node): Map<Policy> {
    ConfigMap(Else(n.config, []))
  }

  function Get(m: Map<Policy>, k: string): Option<Policy> {
    if k in m.table then Some(m.table[k]) else None
  }

  function ConfigOf(order: seq<string>, m: Map<Policy>): seq<PeerConfig> {
    if order == [] then [] else ConfigOf(order[..|order| - 1], m) + [PeerConfig(Last(order), Get(m, Last(order)))]
  }

  /** The list written back to the config: the entries in order. */
  function AsConfig(m: Map<Policy>): seq<PeerConfig> {
    ConfigOf(m.order, m)
  }

  function SyncPeer(p: Peer, m: Map<Policy>, merge: bool): Peer {
    var policy := Get(m, Loose(p.pubkey));
    if policy.Some? then p.(policy := policy)
    else if !merge then p.(policy := Some(AllowAll))
    else p
  }

  /** The peer has the map's policy for its key; without one its own when merging, and both directions allowed when replacing. */
  ghost predicate Synced(p: Peer, u: Peer, set_: map<string, Policy>, merge: bool) {
    var key := Loose(p.pubkey);
    && u.pubkey == p.pubkey
    && u.policy == if key in set_ then Some(set_[key]) else if merge then p.policy else Some(Policy(true, true))
  }

  function SyncPeers(ps: seq<Peer>, m: Map<Policy>, merge: bool): seq<Peer> {
    seq(|ps|, i requires 0 <= i < |ps| => SyncPeer(ps[i], m, merge))
  }

  /** The first n entries of `more` set in turn. */
  function PutAll(m: Map<Policy>, more: Map<Policy>, n: nat): (r: Map<Policy>)
    requires n <= |more.order|
    ensures Consistent(m) ==> Consistent(r)
  {
    if n == 0 then m
    else
      var key := more.order[n - 1];
      Put(PutAll(m, more, n - 1), key, Else(Get(more, key), AllowAll))
  }

  /** setNodePolicies: a bad input or a missing config leaves the node alone. */
  function SetPolicies(npub: string -> Option<string>, n: Node, ps: seq<PolicyInput>, merge: bool): Result<Node> {
    match Collect(ParseAll(npub, ps))
    case Err(e) => Err(e)
    case Ok(given) =>
      if n.config.None? then Err(NoConfig)
      else
        var base := if merge then NodeMap(n) else Map([], map[]);
        var m := PutAll(base, given, |given.order|);
        Ok(Node(Some(AsConfig(m)), SyncPeers(n.peers, m, merge)))
  }

  /** Array.prototype.find on the peers, by key. */
  function FindPeer(ps: seq<Peer>, key: string): Option<Peer> {
    if ps == [] then None else if Loose(ps[0].pubkey) == key then Some(ps[0]) else FindPeer(ps[1..], key)
  }

  /** The policy the two queries look up. */
  function Query(npub: string -> Option<string>, n: Node, pubkey: string): Result<Policy> {
    match Strict(npub, pubkey)
    case Err(e) => Err(e)
    case Ok(key) =>
      if key in NodeMap(n).table then Ok(NodeMap(n).table[key])
      else
        var peer := FindPeer(n.peers, key);
        Ok(if peer.Some? then Else(peer.value.policy, AllowAll) else AllowAll)
  }

  function PeerSummary(p: Peer, m: Map<Policy>): Summary {
    var key := Loose(p.pubkey);
    Summary(key, Else(Get(m, key), Else(p.policy, AllowAll)))
  }

  function PeerSummaries(ps: seq<Peer>, m: Map<Policy>): seq<Summary> {
    seq(|ps|, i requires 0 <= i < |ps| => PeerSummary(ps[i], m))
  }

  predicate IsPeer(ps: seq<Peer>, key: string) {
    AmongFirst(ps, |ps|, key)
  }

  predicate AmongFirst(ps: seq<Peer>, n: nat, key: string)
    requires n <= |ps|
  {
    exists i :: 0 <= i < n && Loose(ps[i].pubkey) == key
  }

  function ConfigSummaries(order: seq<string>, m: Map<Policy>, ps: seq<Peer>): seq<Summary> {
    if order == [] then []
    else
      var key := Last(order);
      ConfigSummaries(order[..|order| - 1], m, ps) + if IsPeer(ps, key) then [] else [Summary(key, Else(Get(m, key), AllowAll))]
  }

  function SummariesOf(ps: seq<Peer>, m: Map<Policy>): seq<Summary> {
    PeerSummaries(ps, m) + ConfigSummaries(m.order, m, ps)
  }

  /** What getNodePolicies gathers, before it sorts by key. */
  function Summaries(n: Node): seq<Summary> {
    SummariesOf(n.peers, NodeMap(n))
  }

  /** localeCompare: whether a key may stand before another. */
  type Collation = (string, string) -> bool

  function ByKey(leq: Collation): (Summary, Summary) -> bool {
    (a: Summary, b: Summary) => leq(a.pubkey, b.pubkey)
  }

  /** getNodePolicies. */
  function NodePolicies(n: Node, leq: Collation): seq<Summary> {
    StableSort(ByKey(leq), Summaries(n))
  }

  // ---------------------------------------------------------- one node, whatever was set before

  /** A policy as given, and both directions allowed where none is. */
  ghost function OrAllowed(p: Option<Policy>): Policy {
    if p.Some? then p.value else Policy(true, true)
  }

  /** The last entry of the list whose key this is. */
  ghost predicate LastEntry(cs: seq<PeerConfig>, k: string, j: nat) {
    j < |cs| && Loose(cs[j].pubkey) == k && forall i :: j < i < |cs| ==> Loose(cs[i].pubkey) != k
  }

  ghost predicate NoEntry(cs: seq<PeerConfig>, k: string) {
    forall i :: 0 <= i < |cs| ==> Loose(cs[i].pubkey) != k
  }

  lemma {:induction false} NoEntryNoPolicy(cs: seq<PeerConfig>, k: string)
    requires NoEntry(cs, k)
    ensures Get(ConfigMap(cs), k).None?
  {
    if cs != [] {
      assert Loose(cs[|cs| - 1].pubkey) != k;
      NoEntryNoPolicy(cs[..|cs| - 1], k);
    }
  }

  /** The config's policy for a key is that of its last entry for it. */
  lemma {:induction false} ConfigMapIs(cs: seq<PeerConfig>, k: string, j: nat)
    requires LastEntry(cs, k, j)
    ensures Get(ConfigMap(cs), k) == Some(OrAllowed(cs[j].policy))
  {
    if j < |cs| - 1 {
      assert Loose(cs[|cs| - 1].pubkey) != k;
      ConfigMapIs(cs[..|cs| - 1], k, j);
    }
  }

  /** The first peer whose key this is. */
  ghost predicate FirstPeer(ps: seq<Peer>, k: string, j: nat) {
    j < |ps| && Loose(ps[j].pubkey) == k && forall i :: 0 <= i < j ==> Loose(ps[i].pubkey) != k
  }

  lemma {:induction false} FindPeerIs(ps: seq<Peer>, k: string, j: nat)
    requires FirstPeer(ps, k, j)
    ensures FindPeer(ps, k) == Some(ps[j])
  {
    if j > 0 {
      assert Loose(ps[0].pubkey) != k;
      assert forall i :: 1 <= i < |ps| ==> ps[i] == ps[1..][i - 1];
      FindPeerIs(ps[1..], k, j - 1);
    }
  }

  lemma {:induction false} NoPeerFound(ps: seq<Peer>, k: string)
    requires forall i :: 0 <= i < |ps| ==> Loose(ps[i].pubkey) != k
    ensures FindPeer(ps, k).None?
  {
    if ps != [] {
      assert forall i :: 1 <= i < |ps| ==> ps[i] == ps[1..][i - 1];
      NoPeerFound(ps[1..], k);
    }
  }

  /**
   * Both queries, on any node: the config's last entry for the key decides; without
   * one the first peer of that key; without that both directions are allowed.
   */
  lemma QueryDecides(npub: string -> Option<string>, n: Node, pubkey: string, k: string, cs: seq<PeerConfig>, j: nat)
    requires Strict(npub, pubkey) == Ok(k) && cs == (if n.config.Some? then n.config.value else [])
    ensures LastEntry(cs, k, j) ==> Query(npub, n, pubkey) == Ok(OrAllowed(cs[j].policy))
    ensures NoEntry(cs, k) && FirstPeer(n.peers, k, j) ==> Query(npub, n, pubkey) == Ok(OrAllowed(n.peers[j].policy))
    ensures NoEntry(cs, k) && (forall i :: 0 <= i < |n.peers| ==> Loose(n.peers[i].pubkey) != k) ==>
              Query(npub, n, pubkey) == Ok(Policy(true, true))
  {
    if LastEntry(cs, k, j) {
      ConfigMapIs(cs, k, j);
    }
    if NoEntry(cs, k) {
      NoEntryNoPolicy(cs, k);
      if FirstPeer(n.peers, k, j) {
        FindPeerIs(n.peers, k, j);
      }
      if forall i :: 0 <= i < |n.peers| ==> Loose(n.peers[i].pubkey) != k {
        NoPeerFound(n.peers, k);
      }
    }
  }

  // ------------------------------------------------------------------------ last writer

  /** What the last input about a key sets. */
  ghost function LastFor(es: seq<Parsed>, k: string): Option<Policy> {
    if es == [] then None
    else if Last(es).Ok? && Last(es).value.0 == k then Some(Last(es).value.1)
    else LastFor(es[..|es| - 1], k)
  }

  datatype Call = Call(inputs: seq<PolicyInput>, merge: bool)

  ghost predicate AllOk(es: seq<Parsed>) {
    forall i :: 0 <= i < |es| ==> es[i].Ok?
  }

  /** A call succeeds when none of its inputs is bad. */
  ghost predicate Succeeds(npub: string -> Option<string>, c: Call) {
    AllOk(ParseAll(npub, c.inputs))
  }

  /** The last writer over a run of calls: a replacing call forgets what came before, a failing one never happened. */
  ghost function Wanted(npub: string -> Option<string>, calls: seq<Call>, k: string): Option<Policy> {
    if calls == [] then None
    else
      var front, c := calls[..|calls| - 1], Last(calls);
      var set_ := LastFor(ParseAll(npub, c.inputs), k);
      if !Succeeds(npub, c) || (c.merge && set_.None?) then Wanted(npub, front, k) else set_
  }

  /** Whether a replacing call has gone through. */
  ghost predicate Replaced(npub: string -> Option<string>, calls: seq<Call>) {
    exists i :: 0 <= i < |calls| && Succeeds(npub, calls[i]) && !calls[i].merge
  }

  ghost function RunCalls(npub: string -> Option<string>, n: Node, calls: seq<Call>): Node {
    if calls == [] then n
    else
      var before := RunCalls(npub, n, calls[..|calls| - 1]);
      match SetPolicies(npub, before, Last(calls).inputs, Last(calls).merge)
      case Ok(after) => after
      case Err(_) => before
  }

  lemma {:induction false} CollectsAllOrNothing(es: seq<Parsed>)
    ensures Collect(es).Ok? <==> AllOk(es)
  {
    if es != [] {
      CollectsAllOrNothing(es[..|es| - 1]);
      assert es == es[..|es| - 1] + [Last(es)];
    }
  }

  lemma {:induction false} CollectsLast(es: seq<Parsed>, k: string)
    requires Collect(es).Ok?
    ensures Get(Collect(es).value, k) == LastFor(es, k)
  {
    if es != [] {
      CollectsLast(es[..|es| - 1], k);
    }
  }

  lemma {:induction false} SetKeysAreCanonical(npub: string -> Option<string>, ps: seq<PolicyInput>, k: string)
    ensures LastFor(ParseAll(npub, ps), k).Some? ==> Canonical(k)
  {
    if ps != [] {
      var p := Last(ps);
      assert ParseAll(npub, ps)[..|ps| - 1] == ParseAll(npub, ps[..|ps| - 1]);
      SetKeysAreCanonical(npub, ps[..|ps| - 1], k);
      if p.Input? {
        StrictIsCanonical(npub, p.pubkey);
      }
    }
  }

  lemma PutKey(m: Map<Policy>, key: string, policy: Policy, k: string)
    ensures Get(Put(m, key, policy), k) == if k == key then Some(policy) else Get(m, k)
  {
  }

  lemma {:induction false} PutAllTable(m: Map<Policy>, more: Map<Policy>, n: nat, k: string)
    requires n <= |more.order| && Consistent(more)
    ensures Get(PutAll(m, more, n), k) == if k in more.order[..n] then Get(more, k) else Get(m, k)
  {
    if n > 0 {
      var key := more.order[n - 1];
      assert more.order[..n] == more.order[..n - 1] + [key];
      assert key in more.order && key in more.table;
      PutAllTable(m, more, n - 1, k);
      PutKey(PutAll(m, more, n - 1), key, more.table[key], k);
    }
  }

  lemma OneMoreConfig(cs: seq<PeerConfig>, k: string, policy: Policy)
    requires Canonical(k)
    ensures ConfigMap(cs + [PeerConfig(k, Some(policy))]) == Put(ConfigMap(cs), k, policy)
  {
    LooseKeepsCanonical(k);
    assert (cs + [PeerConfig(k, Some(policy))])[..|cs|] == cs;
  }

  lemma {:induction false} ConfigRoundTrip(order: seq<string>, m: Map<Policy>)
    requires Distinct(order) && forall k :: k in order ==> k in m.table && Canonical(k)
    ensures var r := ConfigMap(ConfigOf(order, m));
            r.order == order && forall k :: k in order ==> Get(r, k) == Get(m, k)
  {
    if order != [] {
      var front, k := order[..|order| - 1], Last(order);
      assert order == front + [k];
      LastIsNew(order);
      ConfigRoundTrip(front, m);
      OneMoreConfig(ConfigOf(front, m), k, m.table[k]);
    }
  }

  lemma SameMap(a: Map<Policy>, b: Map<Policy>)
    requires Consistent(a) && Consistent(b) && a.order == b.order
    requires forall k :: k in a.order ==> Get(a, k) == Get(b, k)
    ensures a == b
  {
    assert forall k :: k in a.table <==> k in b.table;
    assert forall k :: k in a.table ==> Get(a, k) == Get(b, k);
    assert a.table == b.table;
  }

  /** The list written to the config reads back as the map it was written from. */
  lemma ConfigReadsBack(m: Map<Policy>)
    requires Consistent(m) && forall k :: k in m.table ==> Canonical(k)
    ensures ConfigMap(AsConfig(m)) == m
  {
    ConfigRoundTrip(m.order, m);
    SameMap(ConfigMap(AsConfig(m)), m);
  }

  // ---------------------------------------------------------------------- the views agree

  /** The config list and the peer objects both show the last writer's policy, or the default. */
  ghost predicate Tracks(npub: string -> Option<string>, n: Node, calls: seq<Call>) {
    && n.config.Some? && AsConfig(NodeMap(n)) == n.config.value
    && (forall k :: k in NodeMap(n).table ==> Canonical(k))
    && (forall k :: Get(NodeMap(n), k) == Wanted(npub, calls, k))
    && (forall i :: 0 <= i < |n.peers| ==> n.peers[i].policy == Some(OrAllowed(Wanted(npub, calls, Loose(n.peers[i].pubkey)))))
  }

  /** What a call that goes through makes of one key. */
  ghost function After(es: seq<Parsed>, merge: bool, n: Node, k: string): Option<Policy> {
    if LastFor(es, k).None? && merge then Get(NodeMap(n), k) else LastFor(es, k)
  }

  /** The map such a call writes. */
  ghost function NewMap(es: seq<Parsed>, merge: bool, n: Node): (m: Map<Policy>)
    requires Collect(es).Ok?
    ensures Consistent(m)
  {
    PutAll(if merge then NodeMap(n) else Map([], map[]), Collect(es).value, |Collect(es).value.order|)
  }

  lemma NewMapKey(es: seq<Parsed>, merge: bool, n: Node, k: string)
    requires Collect(es).Ok?
    ensures Get(NewMap(es, merge, n), k) == After(es, merge, n, k)
  {
    var given := Collect(es).value;
    CollectsLast(es, k);
    PutAllTable(if merge then NodeMap(n) else Map([], map[]), given, |given.order|, k);
    assert given.order[..|given.order|] == given.order;
  }

  /** A call with a bad input fails with the error of the first one, and one without on a node without config for that. */
  lemma CallFails(npub: string -> Option<string>, n: Node, c: Call, j: nat)
    ensures j < |c.inputs| && Normalize(npub, c.inputs[j]).Err? && (forall i :: 0 <= i < j ==> Normalize(npub, c.inputs[i]).Ok?) ==>
              SetPolicies(npub, n, c.inputs, c.merge) == Err(Normalize(npub, c.inputs[j]).error)
    ensures Succeeds(npub, c) && n.config.None? ==> SetPolicies(npub, n, c.inputs, c.merge) == Err(NoConfig)
  {
    var es := ParseAll(npub, c.inputs);
    CollectsAllOrNothing(es);
    if j < |c.inputs| && Normalize(npub, c.inputs[j]).Err? && forall i :: 0 <= i < j ==> Normalize(npub, c.inputs[i]).Ok? {
      var upto := es[..j + 1];
      CollectsAllOrNothing(es[..j]);
      assert upto[..|upto| - 1] == es[..j] && Last(upto) == es[j];
      FirstErrorStays(es, j + 1);
    }
  }

  /** After a call that goes through, every peer has what the call or, merging, the config sets for its key; else see Synced. */
  lemma PeersFollowCall(npub: string -> Option<string>, n: Node, c: Call, i: nat)
    requires Succeeds(npub, c) && n.config.Some? && i < |n.peers|
    ensures var r := SetPolicies(npub, n, c.inputs, c.merge);
            var given := LastFor(ParseAll(npub, c.inputs), Loose(n.peers[i].pubkey));
            var before := Get(NodeMap(n), Loose(n.peers[i].pubkey));
            && r.Ok? && |r.value.peers| == |n.peers| && r.value.peers[i].pubkey == n.peers[i].pubkey
            && r.value.peers[i].policy == if given.Some? then given else if !c.merge then Some(Policy(true, true))
                                          else if before.Some? then before else n.peers[i].policy
  {
    var es := ParseAll(npub, c.inputs);
    CollectsAllOrNothing(es);
    NewMapKey(es, c.merge, n, Loose(n.peers[i].pubkey));
  }

  /** One call that goes through: the new map, key by key. */
  lemma SetMap(npub: string -> Option<string>, n: Node, c: Call)
    requires Succeeds(npub, c) && n.config.Some?
    requires c.merge ==> forall k :: k in NodeMap(n).table ==> Canonical(k)
    ensures SetPolicies(npub, n, c.inputs, c.merge).Ok?
    ensures var u := SetPolicies(npub, n, c.inputs, c.merge).value;
            && u.config == Some(AsConfig(NodeMap(u))) && (forall k :: k in NodeMap(u).table ==> Canonical(k))
            && u.peers == SyncPeers(n.peers, NodeMap(u), c.merge)
            && forall k :: Get(NodeMap(u), k) == After(ParseAll(npub, c.inputs), c.merge, n, k)
  {
    var es := ParseAll(npub, c.inputs);
    CollectsAllOrNothing(es);
    var m := NewMap(es, c.merge, n);
    forall k ensures Get(m, k) == After(es, c.merge, n, k) && (k in m.table ==> Canonical(k)) {
      NewMapKey(es, c.merge, n, k);
      SetKeysAreCanonical(npub, c.inputs, k);
      assert Get(m, k).Some? <==> k in m.table;
    }
    ConfigReadsBack(m);
  }

  lemma CallTracks(npub: string -> Option<string>, n: Node, calls: seq<Call>)
    requires n.config.Some? && calls != [] && Succeeds(npub, Last(calls))
    requires Last(calls).merge ==> Tracks(npub, n, calls[..|calls| - 1])
    ensures SetPolicies(npub, n, Last(calls).inputs, Last(calls).merge).Ok?
    ensures Tracks(npub, SetPolicies(npub, n, Last(calls).inputs, Last(calls).merge).value, calls)
  {
    var c := Last(calls);
    SetMap(npub, n, c);
    var u := SetPolicies(npub, n, c.inputs, c.merge).value;
    forall k ensures Get(NodeMap(u), k) == Wanted(npub, calls, k) {
      assert Get(NodeMap(u), k) == After(ParseAll(npub, c.inputs), c.merge, n, k);
      assert c.merge ==> Get(NodeMap(n), k) == Wanted(npub, calls[..|calls| - 1], k);
    }
    forall i | 0 <= i < |u.peers|
      ensures u.peers[i].policy == Some(OrAllowed(Wanted(npub, calls, Loose(u.peers[i].pubkey))))
    {
      assert u.peers[i] == SyncPeer(n.peers[i], NodeMap(u), c.merge);
    }
  }

  /**
   * After a replacing call and any number of other calls, from any node with a
   * config, the config list and every peer object show the last writer's policy.
   */
  lemma {:induction false} ViewsTrackLastWriter(npub: string -> Option<string>, n: Node, calls: seq<Call>)
    requires n.config.Some? && Replaced(npub, calls)
    ensures Tracks(npub, RunCalls(npub, n, calls), calls)
  {
    var front, c := calls[..|calls| - 1], Last(calls);
    ConfigStays(npub, n, front);
    if !Succeeds(npub, c) || c.merge {
      var i :| 0 <= i < |calls| && Succeeds(npub, calls[i]) && !calls[i].merge;
      assert front[i] == calls[i];
      ViewsTrackLastWriter(npub, n, front);
    }
    if Succeeds(npub, c) {
      CallTracks(npub, RunCalls(npub, n, front), calls);
    } else {
      CollectsAllOrNothing(ParseAll(npub, c.inputs));
    }
  }

  lemma {:induction false} ConfigStays(npub: string -> Option<string>, n: Node, calls: seq<Call>)
    requires n.config.Some?
    ensures RunCalls(npub, n, calls).config.Some?
  {
    if calls != [] {
      ConfigStays(npub, n, calls[..|calls| - 1]);
    }
  }

  lemma {:induction false} FoundPeer(ps: seq<Peer>, key: string)
    ensures FindPeer(ps, key).Some? ==> exists i :: 0 <= i < |ps| && ps[i] == FindPeer(ps, key).value && Loose(ps[i].pubkey) == key
  {
    if ps != [] && Loose(ps[0].pubkey) != key {
      FoundPeer(ps[1..], key);
      if FindPeer(ps, key).Some? {
        var i :| 0 <= i < |ps[1..]| && ps[1..][i] == FindPeer(ps, key).value && Loose(ps[1..][i].pubkey) == key;
        assert ps[i + 1] == ps[1..][i];
      }
    }
  }

  /** canSendToPeer and canReceiveFromPeer answer with the last writer's policy for every key they accept. */
  lemma QueriesAgree(npub: string -> Option<string>, n: Node, calls: seq<Call>, pubkey: string)
    requires Tracks(npub, n, calls) && Strict(npub, pubkey).Ok?
    ensures Query(npub, n, pubkey) == Ok(OrAllowed(Wanted(npub, calls, Strict(npub, pubkey).value)))
  {
    var key := Strict(npub, pubkey).value;
    assert Get(NodeMap(n), key) == Wanted(npub, calls, key);
    FoundPeer(n.peers, key);
  }

  ghost function Keys(ss: seq<Summary>): seq<string> {
    seq(|ss|, i requires 0 <= i < |ss| => ss[i].pubkey)
  }

  ghost function PeerKeys(ps: seq<Peer>): seq<string> {
    seq(|ps|, i requires 0 <= i < |ps| => Loose(ps[i].pubkey))
  }

  lemma IsPeerKey(ps: seq<Peer>, k: string)
    ensures IsPeer(ps, k) <==> k in PeerKeys(ps)
  {
    if IsPeer(ps, k) {
      var i :| 0 <= i < |ps| && Loose(ps[i].pubkey) == k;
      assert PeerKeys(ps)[i] == k;
    }
  }

  /** The summaries of keys that are no peer's: each such key of the config once, with its policy. */
  lemma {:induction false} ConfigSummariesAre(order: seq<string>, m: Map<Policy>, ps: seq<Peer>)
    requires Distinct(order)
    ensures var ss := ConfigSummaries(order, m, ps);
            && (forall k :: k in Keys(ss) <==> k in order && !IsPeer(ps, k))
            && Distinct(Keys(ss))
            && forall i :: 0 <= i < |ss| ==> ss[i].policy == Else(Get(m, ss[i].pubkey), AllowAll)
  {
    if order != [] {
      var front, key := order[..|order| - 1], Last(order);
      assert order == front + [key];
      ConfigSummariesAre(front, m, ps);
      LastIsNew(order);
      var before := ConfigSummaries(front, m, ps);
      if !IsPeer(ps, key) {
        assert Keys(ConfigSummaries(order, m, ps)) == Keys(before) + [key];
      } else {
        assert before + [] == before;
      }
    }
  }

  lemma SummaryKeys(ps: seq<Peer>, m: Map<Policy>)
    ensures Keys(SummariesOf(ps, m)) == PeerKeys(ps) + Keys(ConfigSummaries(m.order, m, ps))
  {
    assert Keys(PeerSummaries(ps, m)) == PeerKeys(ps);
  }

  lemma GathersAll(npub: string -> Option<string>, n: Node, calls: seq<Call>, k: string)
    requires Tracks(npub, n, calls)
    ensures k in Keys(Summaries(n)) <==> IsPeer(n.peers, k) || Wanted(npub, calls, k).Some?
  {
    var m := NodeMap(n);
    ConfigSummariesAre(m.order, m, n.peers);
    IsPeerKey(n.peers, k);
    SummaryKeys(n.peers, NodeMap(n));
    assert k in m.order <==> Get(m, k).Some?;
    assert Get(m, k) == Wanted(npub, calls, k);
  }

  /** A summary shows the config's policy for its key, else the peer's own, else the default. */
  lemma SummaryPolicy(ps: seq<Peer>, m: Map<Policy>, i: nat)
    requires Consistent(m) && i < |SummariesOf(ps, m)|
    ensures var s := SummariesOf(ps, m)[i];
            s.policy == if s.pubkey in m.table then m.table[s.pubkey] else OrAllowed(if i < |ps| then ps[i].policy else None)
    ensures i < |ps| ==> SummariesOf(ps, m)[i].pubkey == Loose(ps[i].pubkey)
  {
    SummaryAt(ps, m, i);
    if i >= |ps| {
      ConfigSummariesAre(m.order, m, ps);
    }
  }

  lemma SummaryAt(ps: seq<Peer>, m: Map<Policy>, i: nat)
    requires i < |SummariesOf(ps, m)|
    ensures SummariesOf(ps, m)[i] == if i < |ps| then PeerSummary(ps[i], m) else ConfigSummaries(m.order, m, ps)[i - |ps|]
  {
  }

  lemma TracksKey(npub: string -> Option<string>, n: Node, calls: seq<Call>, k: string)
    requires Tracks(npub, n, calls)
    ensures Get(NodeMap(n), k) == Wanted(npub, calls, k)
  {
  }

  lemma GathersLastWriter(npub: string -> Option<string>, n: Node, calls: seq<Call>, i: nat)
    requires Tracks(npub, n, calls) && i < |Summaries(n)|
    ensures Summaries(n)[i].policy == OrAllowed(Wanted(npub, calls, Summaries(n)[i].pubkey))
  {
    SummaryPolicy(n.peers, NodeMap(n), i);
    TracksKey(npub, n, calls, Summaries(n)[i].pubkey);
  }

  lemma JoinDistinct(a: seq<string>, b: seq<string>)
    requires Distinct(b) && forall k :: k in b ==> k !in a
    ensures Distinct(a + b) <==> Distinct(a)
  {
    var c := a + b;
    assert forall i :: 0 <= i < |a| ==> c[i] == a[i];
    assert forall i :: |a| <= i < |c| ==> c[i] == b[i - |a|] && c[i] in b;
    if Distinct(a) {
      forall i, j | 0 <= i < j < |c| ensures c[i] != c[j] {
        assert i < |a| ==> c[i] in a;
      }
    }
  }

  lemma GatheredOnce(n: Node)
    ensures Distinct(Keys(Summaries(n))) <==> Distinct(PeerKeys(n.peers))
  {
    var rest := ConfigSummaries(NodeMap(n).order, NodeMap(n), n.peers);
    ConfigSummariesAre(NodeMap(n).order, NodeMap(n), n.peers);
    forall k | k in Keys(rest) ensures k !in PeerKeys(n.peers) {
      IsPeerKey(n.peers, k);
    }
    SummaryKeys(n.peers, NodeMap(n));
    JoinDistinct(PeerKeys(n.peers), Keys(rest));
  }

  // ------------------------------------------------------------------------ the sorted list

  lemma KeyOf(ss: seq<Summary>, k: string)
    ensures k in Keys(ss) <==> exists s :: s in multiset(ss) && s.pubkey == k
  {
    if k in Keys(ss) {
      var i :| 0 <= i < |ss| && Keys(ss)[i] == k;
      assert ss[i] in multiset(ss);
    }
    if exists s :: s in multiset(ss) && s.pubkey == k {
      var s :| s in multiset(ss) && s.pubkey == k;
      var i :| 0 <= i < |ss| && ss[i] == s;
      assert Keys(ss)[i] == k;
    }
  }

  /** getNodePolicies lists exactly the peers and the keys that were set. */
  lemma SummariesListAll(npub: string -> Option<string>, n: Node, leq: Collation, calls: seq<Call>, k: string)
    requires Tracks(npub, n, calls)
    ensures k in Keys(NodePolicies(n, leq)) <==> IsPeer(n.peers, k) || Wanted(npub, calls, k).Some?
  {
    GathersAll(npub, n, calls, k);
    SortPermutes(ByKey(leq), Summaries(n));
    KeyOf(Summaries(n), k);
    KeyOf(NodePolicies(n, leq), k);
  }

  lemma ComesFrom(n: Node, leq: Collation, i: nat) returns (j: nat)
    requires i < |NodePolicies(n, leq)|
    ensures j < |Summaries(n)| && Summaries(n)[j] == NodePolicies(n, leq)[i]
  {
    SortPermutes(ByKey(leq), Summaries(n));
    var s := NodePolicies(n, leq)[i];
    assert s in multiset(NodePolicies(n, leq));
    assert s in multiset(Summaries(n));
    j :| 0 <= j < |Summaries(n)| && Summaries(n)[j] == s;
  }

  /** getNodePolicies shows the last writer's policy, or the default, for everything it lists. */
  lemma SummariesAgree(npub: string -> Option<string>, n: Node, leq: Collation, calls: seq<Call>, i: nat)
    requires Tracks(npub, n, calls) && i < |NodePolicies(n, leq)|
    ensures NodePolicies(n, leq)[i].policy == OrAllowed(Wanted(npub, calls, NodePolicies(n, leq)[i].pubkey))
  {
    var j := ComesFrom(n, leq, i);
    GathersLastWriter(npub, n, calls, j);
  }

  /** Its list is in the order of the keys. */
  lemma SummariesAreSorted(n: Node, leq: Collation, i: nat, j: nat)
    requires TotalOrder(leq) && i < j < |NodePolicies(n, leq)|
    ensures leq(NodePolicies(n, leq)[i].pubkey, NodePolicies(n, leq)[j].pubkey)
  {
    var order := ByKey(leq);
    forall a, b ensures order(a, b) || order(b, a) { assert leq(a.pubkey, b.pubkey) || leq(b.pubkey, a.pubkey); }
    forall a, b, c | order(a, b) && order(b, c) ensures order(a, c) { assert leq(a.pubkey, b.pubkey) && leq(b.pubkey, c.pubkey); }
    SortSorts(order, Summaries(n));
    assert ByKey(leq)(NodePolicies(n, leq)[i], NodePolicies(n, leq)[j]);
  }

  lemma {:induction false} InsertKeys(leq: Collation, ss: seq<Summary>, s: Summary)
    ensures multiset(Keys(Insert(ByKey(leq), ss, s))) == multiset(Keys(ss)) + multiset{s.pubkey}
  {
    if ss == [] || ByKey(leq)(Last(ss), s) {
      assert Keys(ss + [s]) == Keys(ss) + [s.pubkey];
    } else {
      var front := ss[..|ss| - 1];
      InsertKeys(leq, front, s);
      assert Keys(Insert(ByKey(leq), front, s) + [Last(ss)]) == Keys(Insert(ByKey(leq), front, s)) + [Last(ss).pubkey];
      assert Keys(ss) == Keys(front) + [Last(ss).pubkey];
    }
  }

  lemma {:induction false} SortKeys(leq: Collation, ss: seq<Summary>)
    ensures multiset(Keys(StableSort(ByKey(leq), ss))) == multiset(Keys(ss))
  {
    if ss != [] {
      var front := ss[..|ss| - 1];
      SortKeys(leq, front);
      InsertKeys(leq, StableSort(ByKey(leq), front), Last(ss));
      assert Keys(ss) == Keys(front) + [Last(ss).pubkey];
    }
  }

  lemma {:induction false} DistinctByCount(s: seq<string>)
    ensures Distinct(s) <==> forall k :: k in s ==> multiset(s)[k] == 1
  {
    if s != [] {
      var front, x := s[..|s| - 1], Last(s);
      assert s == front + [x];
      DistinctByCount(front);
      if Distinct(s) {
        LastIsNew(s);
      } else if forall k :: k in s ==> multiset(s)[k] == 1 {
        assert multiset(s) == multiset(front) + multiset{x} && x in s;
        assert multiset(s)[x] == multiset(front)[x] + 1;
        forall k | k in front ensures multiset(front)[k] == 1 {
          assert k in s && k in multiset(front);
        }
      }
    }
  }

  /** Each key is listed once exactly when no two peers normalise to one key. */
  lemma ListedOnceIffPeersDiffer(n: Node, leq: Collation)
    ensures Distinct(Keys(NodePolicies(n, leq))) <==> Distinct(PeerKeys(n.peers))
  {
    var a, b := Keys(Summaries(n)), Keys(NodePolicies(n, leq));
    SortKeys(leq, Summaries(n));
    DistinctByCount(a);
    DistinctByCount(b);
    assert forall k :: k in a <==> k in multiset(a);
    assert forall k :: k in b <==> k in multiset(b);
    GatheredOnce(n);
  }

  // ------------------------------------------------------------------- the node as an object

  class PolicyNode {
    var config: Option<seq<PeerConfig>>
    var peers: seq<Peer>

    constructor (config: Option<seq<PeerConfig>>, peers: seq<Peer>)
      ensures View() == Node(config, peers)
    {
      this.config, this.peers := config, peers;
    }

    function View(): Node
      reads this
    {
      Node(config, peers)
    }

    method CollectPolicyMap() returns (m: Map<Policy>)
      ensures m == NodeMap(View())
    {
      m := Map([], map[]);
      var list := Else(config, []);
      for i := 0 to |list|
        invariant m == ConfigMap(list[..i])
      {
        assert list[..i + 1][..i] == list[..i];
        m := Put(m, Loose(list[i].pubkey), Else(list[i].policy, AllowAll));
      }
      assert list[..|list|] == list;
    }

    method SyncPeersWithPolicies(m: Map<Policy>, merge: bool)
      modifies this`peers
      ensures peers == SyncPeers(old(peers), m, merge)
      ensures |peers| == |old(peers)| && forall i :: 0 <= i < |peers| ==> Synced(old(peers)[i], peers[i], m.table, merge)
    {
      for i := 0 to |peers|
        invariant |peers| == |old(peers)|
        invariant forall j :: 0 <= j < |peers| ==> peers[j] == if j < i then SyncPeer(old(peers)[j], m, merge) else old(peers)[j]
      {
        var key := Loose(peers[i].pubkey);
        if key in m.table {
          peers := peers[i := peers[i].(policy := Some(m.table[key]))];
        } else if !merge {
          peers := peers[i := peers[i].(policy := Some(AllowAll))];
        }
      }
    }

    method SetNodePolicies(npub: string -> Option<string>, leq: Collation, ps: seq<PolicyInput>, merge: bool)
      returns (r: Result<seq<Summary>>)
      modifies this
      ensures match SetPolicies(npub, old(View()), ps, merge)
              case Ok(after) => View() == after && r == Ok(NodePolicies(after, leq))
              case Err(e) => View() == old(View()) && r == Err(e)
    {
      var normalized := NormalizePolicies(npub, ps);
      if normalized.Err? {
        return Err(normalized.error);
      }
      var given := normalized.value;
      var m := Map([], map[]);
      if merge {
        m := CollectPolicyMap();
      }
      ghost var base := m;
      for i := 0 to |given.order|
        invariant m == PutAll(base, given, i)
        invariant View() == old(View())
      {
        assert given.order[i] in given.order;
        m := Put(m, given.order[i], given.table[given.order[i]]);
      }
      if config.None? {
        return Err(NoConfig);
      }
      config := Some(AsConfig(m));
      SyncPeersWithPolicies(m, merge);
      var summaries := GetNodePolicies(leq);
      r := Ok(summaries);
    }

    method GetNodePolicies(leq: Collation) returns (ss: seq<Summary>)
      ensures ss == NodePolicies(View(), leq)
    {
      var m := CollectPolicyMap();
      var known, seen := SummarizePeers(m);
      var rest := SummarizeConfig(m, seen);
      ss := StableSort(ByKey(leq), known + rest);
    }

    method SummarizePeers(m: Map<Policy>) returns (ss: seq<Summary>, seen: set<string>)
      ensures ss == PeerSummaries(peers, m)
      ensures forall k :: k in seen <==> IsPeer(peers, k)
    {
      ss, seen := [], {};
      for i := 0 to |peers|
        invariant ss == PeerSummaries(peers[..i], m)
        invariant forall k :: k in seen <==> AmongFirst(peers, i, k)
      {
        ss := ss + [PeerSummary(peers[i], m)];
        MorePeers(peers, i);
        seen := seen + {Loose(peers[i].pubkey)};
      }
      assert peers[..|peers|] == peers;
    }

    /** The config's keys that are no peer's. */
    method SummarizeConfig(m: Map<Policy>, seen: set<string>) returns (ss: seq<Summary>)
      requires forall k :: k in seen <==> IsPeer(peers, k)
      ensures ss == ConfigSummaries(m.order, m, peers)
    {
      ss := [];
      for i := 0 to |m.order|
        invariant ss == ConfigSummaries(m.order[..i], m, peers)
      {
        assert m.order[..i + 1][..i] == m.order[..i];
        if m.order[i] !in seen {
          ss := ss + [Summary(m.order[i], Else(Get(m, m.order[i]), AllowAll))];
        }
      }
      assert m.order[..|m.order|] == m.order;
    }

    /** canSendToPeer, with its scan for the first peer of that key. */
    method CanSendToPeer(npub: string -> Option<string>, pubkey: string) returns (r: Result<bool>)
      ensures r == match Query(npub, View(), pubkey) case Ok(p) => Ok(p.send) case Err(e) => Err(e)
    {
      var p := Look(npub, pubkey);
      r := match p case Ok(q) => Ok(q.send) case Err(e) => Err(e);
    }

    method CanReceiveFromPeer(npub: string -> Option<string>, pubkey: string) returns (r: Result<bool>)
      ensures r == match Query(npub, View(), pubkey) case Ok(p) => Ok(p.recv) case Err(e) => Err(e)
    {
      var p := Look(npub, pubkey);
      r := match p case Ok(q) => Ok(q.recv) case Err(e) => Err(e);
    }

    method Look(npub: string -> Option<string>, pubkey: string) returns (r: Result<Policy>)
      ensures r == Query(npub, View(), pubkey)
    {
      var normalized := Strict(npub, pubkey);
      if normalized.Err? {
        return Err(normalized.error);
      }
      var key := normalized.value;
      var m := CollectPolicyMap();
      if key in m.table {
        return Ok(m.table[key]);
      }
      for i := 0 to |peers|
        invariant FindPeer(peers, key) == FindPeer(peers[i..], key)
      {
        assert peers[i..][1..] == peers[i + 1..];
        if Loose(peers[i].pubkey) == key {
          return Ok(Else(peers[i].policy, AllowAll));
        }
      }
      r := Ok(AllowAll);
    }
  }

  lemma MorePeers(ps: seq<Peer>, i: nat)
    requires i < |ps|
    ensures forall k :: AmongFirst(ps, i + 1, k) <==> AmongFirst(ps, i, k) || k == Loose(ps[i].pubkey)
  {
    forall k ensures AmongFirst(ps, i + 1, k) <==> AmongFirst(ps, i, k) || k == Loose(ps[i].pubkey) {
      if AmongFirst(ps, i, k) {
        var j :| 0 <= j < i && Loose(ps[j].pubkey) == k;
      }
    }
  }

  /** normalizeNodePolicies: the loop stops at the first bad input. */
  method NormalizePolicies(npub: string -> Option<string>, ps: seq<PolicyInput>) returns (r: Result<Map<Policy>>)
    ensures r == Collect(ParseAll(npub, ps))
  {
    var dedup: Map<Policy> := Map([], map[]);
    ghost var es := ParseAll(npub, ps);
    for i := 0 to |ps|
      invariant Collect(es[..i]) == Ok(dedup)
    {
      assert es[..i + 1][..i] == es[..i];
      match Normalize(npub, ps[i])
      case Err(e) =>
        FirstErrorStays(es, i + 1);
        return Err(e);
      case Ok((key, policy)) =>
        dedup := Put(dedup, key, policy);
    }
    assert es[..|ps|] == es;
    r := Ok(dedup);
  }

  lemma {:induction false} FirstErrorStays(es: seq<Parsed>, n: nat)
    requires n <= |es| && Collect(es[..n]).Err?
    ensures Collect(es) == Collect(es[..n])
  {
    if n == |es| {
      assert es[..n] == es;
    } else {
      assert es[..|es| - 1][..n] == es[..n];
      FirstErrorStays(es[..|es| - 1], n);
    }
  }
}
