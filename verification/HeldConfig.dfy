/**
 * Which kinds are delay-gated and how the gateway paces its re-requests
 * (src/cinderella/held-config.ts), and the share nodes' refusals
 * (src/cinderella/refusal.ts). All times are milliseconds.
 */
module HeldConfig {
  import opened Basics

  const HOUR: int := 3_600_000

  /** delays: HELD_KINDS in milliseconds; every / margin: HELD_RETRY_EVERY_MS, HELD_RETRY_MARGIN_MS. */
  datatype Config = Config(delays: map<int, int>, every: int, margin: int) {
    /** The ranges heldKinds, retryEveryMs and retryMarginMs validate. */
    ghost predicate Valid() {
      every >= 1000 && margin >= 0 && forall k :: k in delays ==> delays[k] > 0
    }

    function DelayOr24h(kind: int): int {
      if kind in delays then delays[kind] else 24 * HOUR
    }
  }

  /** Replaceable kinds (NIP-01, section "Kinds"). */
  predicate IsReplaceable(kind: int) {
    kind == 0 || kind == 3 || 10000 <= kind < 20000
  }

  datatype Code = Locked | Held | CatchingUp | Vetoed | RateLimited | Denied | Nonce | Error

  /** What one share node answered; unlockAt / retryAt are absent when it gave no time. */
  datatype PeerRefusal = PeerRefusal(peer: string, idx: Option<nat>, code: Code, unlockAt: Option<int>, retryAt: Option<int>)
}
