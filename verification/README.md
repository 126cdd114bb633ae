# Verified model of the Cinderella gateway

The gateway holds one share of a threshold key. It asks share nodes to sign
Nostr events, keeps delay-gated events until the nodes will sign them, follows
veto notices on relays, and runs a small relay, an event log and a rate limiter
beside that. This project models the stateful parts and proves what they keep.
`dafny verify dfyconfig.toml` checks all of it.

**Held events.** `HeldStore` is the `held_events` table, its statements as
functions on rows and as methods of a class. `HeldPlan` decides when to ask
again. `HeldLifecycle` is the whole life of held events as a state machine:
`processDueHeld` and `signOrHold` are cut at every `await`, a pass works on a
stale snapshot, and between two of its steps submissions, veto notices, cancels,
the clock and a restart may intervene. `HeldSafety` and `HeldGiveUp` hold the
results over every run, `HeldCancel` when taking an event back holds,
`HeldSubmission` what one submission leaves behind, and `HeldRecords` what each
step leaves, in terms of the nodes' and relays' answers alone. `HeldScheduler` has the loops
as they are written and proves that each of them is one particular run of that
machine, which deals with every due row, so the results are about the loops.
`HeldWitnesses` has the concrete runs that show where promises end.

**Nonces and signing.** `NoncePool` is bifrost's pool as far as the resync code
reaches into it; of bifrost it assumes that batches are fresh, that spending a
nonce removes it, and that with nothing outgoing for a peer it sends more.
`NonceNetwork` runs any number of nodes over a network that loses, delays,
duplicates and replays messages. `NonceResync` follows one pair of pools through
a ping and through single flight, with timed-out pings still under way.
`SignRounds` has `ensure_nonces` for any order
in which pings settle, and the two signing rounds with their discards.

**Relay feed and veto notices.** `RelayFeed` is the feed's handlers over its
connections and timers, with a trace of everything that crosses its border;
`RelayFeedSafety` has the invariant and the soundness of "caught up" against
that trace alone, `RelayFeedRenewal` that no open socket stays without a
subscription, `RelayFeedTiming` how long retries wait and whom the heartbeat drops,
`RelayFeedCallbacks` exactly which callbacks are made,
`RelayFeedObject` the handlers changing fields in place. `VetoNotices` puts the
catch-up points and the handling of gift wraps on top, and `VetoCoverage` lets
wraps reach relays while the listener runs.

**Smaller cores.** `TokenBucket` (message rate limit), `EventLog`
(content-addressed entries, cursors, prune), `NostrRelay` (cache, filters,
subscription map), `PeerPolicy` (four views of the peers' policies).
`InsertionMap` is the JavaScript `Map`, `Sorting` its stable sort; `Basics` has
small helpers.

## Where the code and its comments disagree

The model follows the code.

- `src/db/held-events.ts:209-210` says a cancelled event can be submitted again.
  `holdEvent` returns the stored row whatever its status, so it is not held
  again: `HeldSubmission.ResubmittedIsNotHeldAgain`.
- `src/db/held-events.ts:191` calls a veto final. It is, until somebody cancels
  the row (`HeldSafety.VetoIsFinal`, an if-and-only-if).
- `src/db/held-events.ts:209` says a cancelled event leaves the list of things the
  gateway works on. It does for good exactly when the pass under way has no copy
  of its row, and the same goes for superseded rows
  (`HeldCancel.WithdrawalHoldsIff`). A cancel that lands while the row's signature
  is awaited lets the signature be stored and published
  (`HeldWitnesses.VetoThenCancelStillPublishes`); one that lands while the pass is
  still at another row does not even keep it from being asked for
  (`HeldWitnesses.CancelledIsAskedAgain`). One live row per replaceable slot breaks
  exactly when a row is overwritten like that whose slot was taken
  (`HeldSafety.OneLivePerSlotReached`, `HeldWitnesses.LateSignatureTakesSlotBack`).
- `src/cinderella/held-events.ts:272` takes a veto whose peer has no name for an
  ordinary failure: the row stays held and is due again at once
  (`HeldSafety.RefusalVetoesIff`).
- The file comment of `src/cinderella/held-events.ts:10-12` speaks of one more
  try a full delay later; `planRetry` asks every retry interval until a cap.
- The `rate_limited` branch of `planRetry` neither checks that the time lies
  ahead nor gives up. No re-request is early all the same
  (`HeldSafety.NeverEarly`), but each answer that postpones an event lets it be
  asked about for another whole round (`HeldGiveUp.BoundedRequests`).
- On equal `created_at` the replaceable event submitted later wins; NIP-01,
  section "Kinds", keeps the lowest id. The in-memory relay also lists the
  higher id first. Its tag filter asks that every tag of the name holds all
  listed values, so a second `p` or `e` tag is enough to refuse an event; it
  passes events without the tag, and those where the values stand only later in
  the tags (`NostrRelay.RefusesTooMuchIff`, `NostrRelay.AcceptsTooMuchIff`).
- `src/cinderella/resync.ts:106-115` has single flight keep a second ping from
  killing the first one's batch. A timed-out ping that arrives late still does
  (`NonceResync.LateRequestDiscardsBatch`).
- `src/cinderella/veto-notices.ts:145` lets each relay's `since` follow what that
  relay delivered. Before its first EOSE it follows the other relays, or the
  clock, so what reached it between a first REQ and the one that succeeded is
  missed exactly when the `since` of the latter does not let it through
  (`VetoCoverage.MissedIff`).
- A veto notice that arrives before its event is held is recorded as handled,
  so a replay of the wrap does not veto the event
  (`VetoNotices.EarlyNoticeIsLost`).

## Model

| member | source | states |
|---|---|---|
| HeldStore.Hold | src/db/held-events.ts:112-153 | an event id is stored once: a known event leaves the table alone, an unknown one adds exactly one row |
| HeldStore.HoldIs | src/db/held-events.ts:112-153 | the new row column by column: superseded if and only if a newer event waits for its replaceable slot; otherwise exactly what waits for that slot becomes superseded |
| HeldStore.DueHeld | src/db/held-events.ts:155-161 | exactly the due held and signed rows of the pubkey, each once, by next attempt |
| HeldStore.RunsKeepEvents | src/db/held-events.ts:112-218 | over any run of statements rows are never removed and never change the event they stand for |
| HeldStore.OneRowPerEvent | src/db/held-events.ts:107-121 | event ids stay unique over any run of statements |
| HeldStore.VetoSurvivesUpdates | src/db/held-events.ts:191-192 | no run of statements changes a vetoed row in any column unless it contains a cancel for it |
| HeldStore.SlotBreaksOnlyByRevival | src/db/held-events.ts:112-193 | a statement breaks "one live row per pubkey and replaceable kind" if and only if it revives a row whose slot is taken |
| HeldStore.OneLivePerSlotOverRuns | src/db/held-events.ts:112-193 | over any run that revives no row, at most one live row per pubkey and replaceable kind |
| HeldStore.SupersededByAsNewAnEvent | src/db/held-events.ts:124-136 | a row that becomes superseded leaves a live row of its slot at least as new; on equal times the later submission stays; other kinds are never superseded |
| HeldStore.HeldEvents.GetHeldByEventId | src/db/held-events.ts:95-99 | finds a row of that event id exactly when there is one |
| HeldStore.HeldEvents.HoldEvent | src/db/held-events.ts:112-153 | the statement in place on every row, returning the row now stored for the event |
| HeldStore.HeldEvents.UpdateHeld | src/db/held-events.ts:170-193 | of one row that is not vetoed exactly the given columns, nothing else |
| HeldStore.HeldEvents.MarkVetoed | src/db/held-events.ts:200-206 | held rows of the event become vetoed; true exactly when there was one |
| HeldStore.HeldEvents.CancelHeld | src/db/held-events.ts:212-218 | a held or vetoed row of that pubkey becomes cancelled; true exactly then |
| HeldPlan.Latest | src/cinderella/held-events.ts:52-58 | the largest of the reported times, none exactly when no refusal has one |
| HeldPlan.FirstVetoed | src/cinderella/held-events.ts:223 | a refusal that says vetoed, exactly when there is one |
| HeldPlan.PlanKeepsUnlock | src/cinderella/held-events.ts:218-245 | a plan never brings the unlock forward, and keeps next attempt at or after unlock plus margin exactly unless a rate limit ended before the unlock |
| HeldPlan.VetoAndDenialDecide | src/cinderella/held-events.ts:223-225 | a plan says vetoed if and only if some node did, by the first that did and before anything else; when every node denied the event it is given up |
| HeldPlan.PlanFollowsUnlock | src/cinderella/held-events.ts:226-229 | otherwise, when a locked or held answer names a time ahead, the plan takes the largest time among those answers and asks a margin after it |
| HeldPlan.PlanFollowsRateLimit | src/cinderella/held-events.ts:231-232 | without such a time, a rate limit with a time puts the next attempt a margin after the largest of them, and stores no unlock |
| HeldPlan.PlanWaitsOneInterval | src/cinderella/held-events.ts:234-244 | with neither, one interval later, or given up if and only if that is past the unlock by more than 7 days (nodes answered) or one delay, 24 h without one (none did) |
| HeldPlan.PlanWithinPatience | src/cinderella/held-events.ts:234-244 | with nobody postponing a plan waits one interval within the longer of delay and 7 days, or gives up |
| HeldLifecycle.FirstSigned | src/cinderella/held-events.ts:94-95 | a signature some node gave, exactly when one did |
| HeldLifecycle.KnownEventIsAnswered | src/cinderella/held-events.ts:82-86 | by the status of the row: a published event is answered with its signature, a held, signed, superseded or vetoed one as it stands; about a failed, cancelled or unknown one the nodes are asked |
| HeldLifecycle.FirstSignedIsFirst | src/cinderella/held-events.ts:94-95 | it is the first that signed |
| HeldLifecycle.AllRefusals | src/cinderella/held-events.ts:97-98 | exactly the refusals of the sessions that failed |
| HeldLifecycle.RefusalsInOrder | src/cinderella/held-events.ts:97-98 | in the order of the sessions |
| HeldLifecycle.OutsideStep | src/cinderella/held-events.ts:70-118 | submissions, notices and cancels keep the invariant, the pass and the calls, and change a row only as listed |
| HeldLifecycle.PassStep | src/cinderella/held-events.ts:247-303 | each step of a pass keeps the invariant, and every call it makes is in order at that moment |
| HeldLifecycle.RunsKeepInv | src/cinderella/held-events.ts:247-321 | the invariant of table, snapshot and pass holds in every reachable state |
| HeldSubmission.NewEventIsHeldUnlessSettled | src/cinderella/held-events.ts:94-117 | nothing is stored when a node signed or all refused for good; else one row whose status, unlock and first attempt follow from the codes and times of the refusals, and what waited for its slot makes way unless newer |
| HeldSubmission.ResubmittedIsNotHeldAgain | src/db/held-events.ts:119-121 | submitting a stored event that is no longer held changes nothing in the store |
| HeldRecords.RefusalIsRecorded | src/cinderella/held-events.ts:270-287 | a refused re-request without a veto: one attempt more, and given up or planned as the codes and times of the answers say, no other column |
| HeldRecords.WrongSignatureIsRecorded | src/cinderella/held-events.ts:266-287 | a signature of another event is recorded like no answer at all |
| HeldRecords.SignatureIsRecorded | src/cinderella/held-events.ts:265-269 | the signature of the event is stored with one attempt more and handed to the relays |
| HeldRecords.VetoedRowIsLeft | src/cinderella/held-events.ts:252-267 | of a row vetoed meanwhile nothing is written, whatever was signed |
| HeldRecords.PublicationIsRecorded | src/cinderella/held-events.ts:293-297 | published if and only if some relay answered ok; otherwise due again 5 minutes after the pass began; the answers are kept |
| HeldRecords.FailedPublicationIsRecorded | src/cinderella/held-events.ts:299-301 | a publication that failed: due again 5 minutes after the pass began, nothing else |
| HeldRecords.PassBegins | src/cinderella/held-events.ts:247-263 | a pass that starts copies the due rows and waits for the first of them, for its signature if it is held and for the relays if it is signed; none due, it is over |
| HeldRecords.PassGoesOn | src/cinderella/held-events.ts:259-302 | after a refusal or a publication the next copied row follows, and after the last the pass is over |
| HeldRecords.NoticeIsRecorded | src/db/held-events.ts:200-206 | a notice vetoes exactly the held rows of its event, names the reporter, and changes nothing else of the state |
| HeldRecords.CancelIsRecorded | src/db/held-events.ts:212-218 | a cancel takes back exactly a held or vetoed row of that pubkey, and changes nothing else of the state |
| HeldRecords.SubmissionAsks | src/cinderella/held-events.ts:76-92 | a submission asks the nodes if and only if its kind is delay-gated and every row of its event failed or was cancelled |
| HeldRecords.SubmissionIsRecorded | src/cinderella/held-events.ts:94-117 | its end stores an unknown event from the answers, with the time it came in, or not at all, and leaves one stored meanwhile that is no longer held |
| HeldSafety.NeverEarly | src/cinderella/held-events.ts:103-112 | over every run no re-request is made before unlock plus margin |
| HeldSafety.PublishesWhatWasHeld | src/cinderella/held-events.ts:259-301 | every publish call carries the signature stored with its row, for that row's event id, which some re-request of the run returned; the row is neither held nor vetoed |
| HeldSafety.PublishesTheHeldEvent | src/cinderella/held-events.ts:259-301 | with answers as signing makes them (`SignRounds.CinderellaSign`), every published event is the very event that was held |
| HeldSafety.SignedCameFromAnswers | src/cinderella/held-events.ts:265-268 | over every run a stored signature is one that a re-request returned |
| HeldSafety.SignaturesFitStatuses | src/cinderella/held-events.ts:262-301 | signed and published rows carry a signature of their event id, the others none; published means some relay answered ok |
| HeldSafety.StatusDiagram | src/db/held-events.ts:112-218 | one step moves a row only along the listed edges, and never lowers its unlock time |
| HeldSafety.DiagramOverRuns | src/db/held-events.ts:112-218 | over any run unlock times grow, failed and published stay, and nothing is held or vetoed again |
| HeldSafety.VetoLeavesOnlyByCancel | src/db/held-events.ts:191-218 | a vetoed row stays vetoed in a step if and only if the step is not a cancel of it |
| HeldSafety.VetoIsFinal | src/cinderella/held-events.ts:252-288 | over every continuation of every run a vetoed row is still vetoed if and only if no cancel came, and then it has no signature and is never published |
| HeldSafety.RefusalVetoesIff | src/cinderella/held-events.ts:270-276 | a refused re-request vetoes the row if and only if the first reported veto names its peer; one that does not leaves the row held and due at once |
| HeldSafety.SlotStep | src/cinderella/held-events.ts:265-268 | a step breaks one live row per replaceable slot if and only if it revives a row whose slot another live row has taken |
| HeldSafety.OneLivePerSlotReached | src/db/held-events.ts:107-136 | over every run there is one live row per replaceable slot throughout if and only if no step does that |
| HeldCancel.WithdrawnStep | src/cinderella/held-events.ts:259-301 | a cancelled or superseded row stays so in a step if and only if the step is no answer awaited for its copy that brings a signature, makes the plan give up, or says a relay took it |
| HeldCancel.WithdrawnOverRuns | src/cinderella/held-events.ts:259-301 | over every run it stays so throughout if and only if no step is such an answer |
| HeldCancel.WithdrawalIsFinal | src/cinderella/held-events.ts:259-265 | a cancelled or superseded row of which the pass has no copy: over every continuation it stays so, and no new re-request or publication is about it or its event |
| HeldCancel.CopyOverrules | src/cinderella/held-events.ts:259-301 | a cancelled or superseded row of which the pass has a copy: some continuation overrules it; if it is still to be asked for, it is asked for, signed and published after it was taken back |
| HeldCancel.WithdrawalHoldsIff | src/db/held-events.ts:208-218 | a row cancelled or superseded in any run stays so over every continuation if and only if the pass under way has no copy of it |
| HeldGiveUp.OneMoreIsAllowed | src/cinderella/held-events.ts:234-244 | a row that has waited its intervals and is within the patience has not used up its re-requests |
| HeldGiveUp.BoundedRequests | src/cinderella/held-events.ts:218-303 | over every run, whatever the nodes answer: at most (p + 1) * m + r re-requests of a row, where m = floor((max(delay, 7 days) - margin) / interval) + 1, p answers put it off and r re-requests were cut off by a restart; when there are as many and the last was answered, the row is not held |
| HeldGiveUp.BoundedGiveUp | src/cinderella/held-events.ts:218-303 | where no answer puts the row off: at most m + r re-requests; after the last answer the row is not held |
| HeldWitnesses.RateLimitsNeverGiveUp | src/cinderella/held-events.ts:231-232 | for every n some run from the start re-requests one row n times, each answered by a rate limit, and leaves it held |
| HeldWitnesses.VetoThenCancelStillPublishes | src/cinderella/held-events.ts:265-269 | the run from the start in which a veto and then a cancel during a re-request end in publication |
| HeldWitnesses.CancelledIsAskedAgain | src/cinderella/held-events.ts:259-265 | a run from the start in which an event is cancelled while the pass waits for another one, and then asked for, signed and published |
| HeldWitnesses.LateSignatureTakesSlotBack | src/cinderella/held-events.ts:265-268 | a run from the start that ends with two live rows in one replaceable slot |
| HeldScheduler.Gateway.ProcessDueHeld | src/cinderella/held-events.ts:247-303 | the loop over a stale snapshot is the one run of the machine in which the pass starts and each due row in turn meets what the world does during its awaits and how these end; no restart or second pass is in it |
| HeldScheduler.EveryDueRowIsHandled | src/cinderella/held-events.ts:259-303 | in any pass that ran to its end every due held row was asked for and every due signed one published |
| HeldScheduler.Gateway.RequestOne | src/cinderella/held-events.ts:262-289 | one awaited re-request is the machine's steps, ending in a publication or in the next row |
| HeldScheduler.Gateway.PublishOne | src/cinderella/held-events.ts:291-301 | one awaited publication and its record are the machine's steps |
| HeldScheduler.Gateway.FinishSubmission | src/cinderella/held-events.ts:94-117 | which outcome a submission has, if and only if, what it stores, and that the first two leave the store alone |
| HeldScheduler.Gateway.SignOrHold | src/cinderella/held-events.ts:70-118 | by the old row of that event id: published is answered with its signature, held, signed, superseded or vetoed as it stands, without asking; failed, cancelled or unknown is the run from the start of the submission to its end, and signed, refused for good or held, each if and only if the answers say so |
| NoncePool.RepairsOnlyDiscard | src/cinderella/resync.ts:20-22 | no repair ever adds a nonce to either direction of any pool |
| NoncePool.PingUnsticks | src/cinderella/resync.ts:70-89 | whatever the responder counts, a ping reporting at most critical nonces leaves it due to send fresh ones |
| NoncePool.BifrostPool.DiscardIncoming | src/cinderella/resync.ts:142-150 | drops that peer's incoming nonces only, and says how many |
| NoncePool.BifrostPool.OnPingRequest | src/cinderella/resync.ts:70-89 | the check in place, with its early returns; afterwards more are due when too few are held |
| NoncePool.BifrostPool.SpendRefused | src/cinderella/resync.ts:91-104 | exactly the refused session's nonce is spent, if it names one |
| NoncePool.BifrostPool.OnPeerReset | src/cinderella/resync.ts:222-243 | both directions of the announcing peer are dropped, and only those |
| NonceNetwork.OnlyFreshNoncesEnter | src/cinderella/resync.ts:57-89 | a nonce enters an outgoing pool only in answer to that peer's ping, and never existed before |
| NonceNetwork.SigningSpends | src/cinderella/resync.ts:91-104 | a node signs only with a nonce it counts for that requester, and no longer counts it afterwards |
| NonceNetwork.StepKeepsInv | src/cinderella/resync.ts:20-22 | outstanding nonces are owned, unique per peer and disjoint from the signed ones, under every message and restart |
| NonceNetwork.PingRefills | src/cinderella/resync.ts:57-89 | a ping and its answer: what the requester then holds and the responder counts, nonce by nonce, from what both had and the batch |
| NonceNetwork.OldPingDiscardsNothing | src/cinderella/resync.ts:76-77 | for a ping without a status nothing is discarded |
| NonceNetwork.SignatureRound | src/cinderella/resync.ts:91-104 | a signature request spends its nonce on both sides, whether it is allowed or refused, and is signed exactly when it is allowed and the nonce was counted |
| NonceNetwork.NothingToSignWith | src/cinderella/resync.ts:91-104 | a nonce not held is not asked for |
| NonceNetwork.RestartAndNotice | src/cinderella/resync.ts:222-243 | a restart empties the pools, and its notice, at a peer, both directions between them and nothing else |
| NonceNetwork.DiscardDrops | src/cinderella/resync.ts:142-150 | a discard empties that one incoming pool and no other |
| NonceNetwork.NonceSignsOnce | src/cinderella/resync.ts:20-22 | over every run with loss, duplication, replay, refusals and restarts no nonce is signed with twice |
| NonceNetwork.GoneIsGone | src/cinderella/resync.ts:20-22 | a nonce spent or discarded is never counted and never signed with again |
| NonceResync.PingRepairs | src/cinderella/resync.ts:57-69 | a ping with few nonces left brings the fresh batch, and the pools are in step afterwards if and only if they were and no held nonce was discarded |
| NonceResync.DiscardThenPingRecovers | src/cinderella/resync.ts:142-150 | after discarding everything one ping always brings the pools in step with the fresh batch |
| NonceResync.SecondPingKillsFirstBatch | src/cinderella/resync.ts:111-115 | of two pings that both report nothing the second keeps the first batch if and only if more would have been sent anyway |
| NonceResync.OnePingUntilSettled | src/cinderella/resync.ts:106-140 | after a discard, of any number of callers that ping exactly one sends, until the ping settles, and its reply leaves the pools in step with exactly the fresh nonces held that were made when it arrived |
| NonceResync.EndsOfAPing | src/cinderella/resync.ts:131-135 | its own reply and its timeout end the waiting of all its callers; a reply that comes later ends nobody's, and its nonces count exactly if it is stored |
| NonceResync.KeysOfOnePeer | src/cinderella/resync.ts:129 | a compressed and a bare key of one peer share one ping |
| NonceResync.StaysInStep | src/cinderella/resync.ts:106-140 | over any run with pings timed out, late or lost, the pools stay in step throughout, also for what is on its way, if and only if no ping reaches a stuck responder while a nonce is held or on its way |
| NonceResync.UsableStep | src/cinderella/resync.ts:70-89 | the same for one step |
| NonceResync.LateRequestDiscardsBatch | src/cinderella/resync.ts:133 | a timed-out ping that arrives after the next one was answered: in step afterwards if and only if the batch was empty or more would have been sent anyway |
| NonceResync.PingGate.Ping | src/cinderella/resync.ts:129-136 | the promise in flight for that peer, or a new base ping exactly when there is none |
| NonceResync.PingGate.Settled | src/cinderella/resync.ts:133 | only that peer's promise is forgotten |
| SignRounds.MemberIdx | src/cinderella/resync.ts:41-45 | the index of the first member whose key ends in the 64 characters of that bare or compressed key, none exactly when there is none |
| SignRounds.Askable | src/cinderella/resync.ts:159-166 | exactly the indexes of the wanted peers the policy lets us send to and the group knows |
| SignRounds.AwaitPings | src/cinderella/resync.ts:171-183 | waiting ends at the first settlement that leaves enough signable peers, or when all have settled |
| SignRounds.PingsExactlyWhenShort | src/cinderella/resync.ts:159-185 | a peer is pinged if and only if fewer than threshold - 1 askable peers, and not all of those wanted, can sign, it is askable, and no more than the critical number of its nonces is held |
| SignRounds.SignableCounts | src/cinderella/resync.ts:167 | of distinct peers those count as able to sign of which more than the critical number of nonces is held |
| SignRounds.EnsureNonces | src/cinderella/resync.ts:152-185 | in terms of threshold and wanted peers: it returns before every ping has settled only if threshold - 1 peers, or all wanted ones, can sign; a result below both means the ping of each lacking peer has settled, each once |
| SignRounds.PutReplaces | src/cinderella/request.ts:104 | a peer's refusal replaces its earlier one and leaves the others |
| SignRounds.PutKeepsPlaces | src/cinderella/request.ts:104 | and keeps every peer in its place |
| SignRounds.RefusalsAreTheLatest | src/cinderella/request.ts:99-105 | a round reports each peer once, with the last it said about this event, and leaves none out |
| SignRounds.RecordedIsLast | src/cinderella/request.ts:93-98 | the last event that names members of the session decides whom a failure resets |
| SignRounds.SignatureIsFirst | src/cinderella/request.ts:132-135 | the signature of a reply is that of its first entry for the event, and there is one exactly when there is such an entry |
| SignRounds.DiscardFrom | src/cinderella/request.ts:127 | exactly the listed members that are not exempt lose their nonces |
| SignRounds.SignRound | src/cinderella/request.ts:87-136 | nonces are ensured first; signed if and only if the reply has this event's signature; a failed round resets exactly the session members other than us that gave no policy refusal |
| SignRounds.Listen | src/cinderella/request.ts:90-108 | the session's members and refusals after all events of a round |
| SignRounds.CinderellaSign | src/cinderella/request.ts:57-73 | a second round if and only if the first failed with a nonce refusal; nothing is held then from the refusing peers, each of which it pings unless enough others can sign; signed if and only if the last round's reply has the signature, and what that round leaves in the pool |
| SignRounds.StaleIndexes | src/cinderella/request.ts:65-67 | exactly the known indexes of peers that refused the nonce |
| RelayFeed.MarkIsLiveSub | src/cinderella/relay-feed.ts:136-188 | the mark folded over the trace is live exactly when some subscription of it stands |
| RelayFeed.MarkIsCaughtUp | src/cinderella/relay-feed.ts:79-82 | the folded mark is caught up exactly when a real EOSE stands in the trace |
| RelayFeedSafety.StepKeepsInv | src/cinderella/relay-feed.ts:89-215 | every handler keeps the invariant of connections, timers and trace |
| RelayFeedSafety.RunKeepsInv | src/cinderella/relay-feed.ts:64-216 | the invariant holds in every reachable state |
| RelayFeedSafety.StepKeepsRelays | src/cinderella/relay-feed.ts:64-75 | no step changes which relays the feed is about |
| RelayFeedSafety.CaughtUpIsReal | src/cinderella/relay-feed.ts:79-87 | a relay counts as caught up if and only if a real EOSE for its current subscription on its current socket stands; all_caught_up is that for every relay |
| RelayFeedSafety.FieldsAreReal | src/cinderella/relay-feed.ts:79-87 | wherever the invariant holds the fields say of every relay what the trace says |
| RelayFeedSafety.NeverStranded | src/cinderella/relay-feed.ts:89-134 | a started feed has for every relay a socket or a pending reconnect and at most one timer; a stopped one has neither |
| RelayFeedRenewal.OpenIsServed | src/cinderella/relay-feed.ts:136-170 | in every reachable state of a started, unstopped feed, by the trace and the timers alone: every open connection has a standing subscription that the relay has not closed, or a pending timer to renew it on that very socket |
| RelayFeedRenewal.OpenSubscribes | src/cinderella/relay-feed.ts:136-141 | a current socket that opens is sent a REQ under a fresh id |
| RelayFeedRenewal.TimerSubscribes | src/cinderella/relay-feed.ts:166-170 | so is the open socket a renewal timer was set for, when it fires; for any other socket nothing is sent |
| RelayFeedRenewal.TimerReconnects | src/cinderella/relay-feed.ts:120-134 | a reconnect timer that fires opens a new socket, or sets the next timer when that fails |
| RelayFeedRenewal.StartConnects | src/cinderella/relay-feed.ts:89-134 | starting opens a socket for every relay, or sets a reconnect where none can be made |
| RelayFeedRenewal.LostSocketIsReplaced | src/cinderella/relay-feed.ts:173-180 | a current socket that goes down is let go of with its verdict and its probe, and a reconnect is set; any other changes nothing |
| RelayFeedRenewal.StopLetsGo | src/cinderella/relay-feed.ts:95-104 | stopping lets every socket go and clears every timer |
| RelayFeedSafety.BackoffGrows | src/cinderella/relay-feed.ts:114-118 | the backoff never shrinks with the count and never exceeds the maximum |
| RelayFeedSafety.RetriesBackOff | src/cinderella/relay-feed.ts:17-19 | between two real EOSEs neither the reconnect waits nor the resubscribe waits shrink, and all are capped |
| RelayFeedTiming.BackoffDoubles | src/cinderella/relay-feed.ts:114-118 | from the minimum the backoff doubles ten times, up to the maximum |
| RelayFeedTiming.FirstRetryWaitsLeast | src/cinderella/relay-feed.ts:114-118 | the first retry of a sort since the last real EOSE waits the minimum, unless the maximum is less |
| RelayFeedTiming.NextRetryDoubles | src/cinderella/relay-feed.ts:164-170 | the next of that sort waits twice as long as the one before, up to the maximum, and from the eleventh on as long |
| RelayFeedTiming.TrafficCounts | src/cinderella/relay-feed.ts:142-144 | whatever comes in on the current socket puts off the idle limit |
| RelayFeedTiming.HeartbeatDropsTheSilent | src/cinderella/relay-feed.ts:197-215 | the heartbeat drops exactly the open connections silent for longer than the limit, and probes those of the others that have no probe under way |
| RelayFeedCallbacks.DeliveredByFields | src/cinderella/relay-feed.ts:142-163 | what counts by the trace is what counts by the connection's fields |
| RelayFeedCallbacks.CallbacksExactly | src/cinderella/relay-feed.ts:106-188 | every callback of every step: events and EOSEs of the current subscription, and onstate exactly on a change |
| RelayFeedCallbacks.SilentAfterStop | src/cinderella/relay-feed.ts:95-104 | after stop no callback is made however the run goes on |
| RelayFeedObject.FeedObject.OnMessage | src/cinderella/relay-feed.ts:142-172 | one step of the machine, keeping the object valid and making exactly that step's callbacks: a message |
| RelayFeedObject.FeedObject.OnDown | src/cinderella/relay-feed.ts:173-180 | one step of the machine, keeping the object valid and making exactly that step's callbacks: a lost socket |
| RelayFeedObject.FeedObject.OnTimeout | src/cinderella/relay-feed.ts:120-124 | one step of the machine, keeping the object valid and making exactly that step's callbacks: a timer |
| RelayFeedObject.FeedObject.OnHeartbeat | src/cinderella/relay-feed.ts:197-215 | one step of the machine, keeping the object valid and making exactly that step's callbacks: the heartbeat's loop |
| RelayFeedObject.FeedObject.Start | src/cinderella/relay-feed.ts:89-93 | one step of the machine, keeping the object valid and making exactly that step's callbacks: start |
| RelayFeedObject.FeedObject.OnOpen | src/cinderella/relay-feed.ts:136-141 | one step of the machine, keeping the object valid and making exactly that step's callbacks: an opened socket |
| RelayFeedObject.FeedObject.IsAllCaughtUp | src/cinderella/relay-feed.ts:79-82 | after any sequence of calls, true if and only if on every relay a real EOSE of its current subscription stands |
| RelayFeedObject.FeedObject.Stop | src/cinderella/relay-feed.ts:95-104 | one step of the machine, keeping the object valid and making exactly that step's callbacks: stop; it leaves no timer |
| VetoNotices.Advance | src/cinderella/veto-notices.ts:146-157 | exactly the listed relays' points become now, the others stay |
| VetoNotices.CaughtUpRelays | src/cinderella/relay-feed.ts:84-87 | exactly the urls of the connections that are caught up |
| VetoNotices.ReqStartsAtPoint | src/cinderella/veto-notices.ts:176-181 | a REQ starts 2 days and a minute before the second of the relay's own point; without one before that of the oldest point there is, or of now |
| VetoNotices.EoseMovesPoint | src/cinderella/veto-notices.ts:186 | an EOSE of the current subscription moves exactly that relay's point to now |
| VetoNotices.TickMovesLivePoints | src/cinderella/veto-notices.ts:196-197 | the timer moves exactly the points of relays open and past their EOSE |
| VetoNotices.PointMovesOnlyWhenLive | src/cinderella/veto-notices.ts:145-157 | a point moves only while its relay is open and past EOSE, to now, and is never lost |
| VetoNotices.PointsNeverGoBack | src/cinderella/veto-notices.ts:145-157 | over any run under a clock that does not go back no point does |
| VetoNotices.SlackIsExact | src/cinderella/veto-notices.ts:176-181 | that tolerates a relay clock behind by a lag if and only if it is under 61 s plus the fraction of a second cut off |
| VetoCoverage.CoverStepKeeps | src/cinderella/veto-notices.ts:145-197 | every step of listener, relays and restarts keeps the coverage invariant, if relays send what they hold within less than 61 s |
| VetoCoverage.CatchUpCoverage | src/cinderella/veto-notices.ts:145-197 | over every run from a first start with such relays: of a relay with a point no NIP-59 wrap is missed (neither passed on nor asked for again) that the `since` of the last REQ before its first point lets through |
| VetoCoverage.RetriedFirstReqMisses | src/cinderella/veto-notices.ts:176-181 | a run in which a wrap that came after the first REQ is missed, because the `since` of the one that got the first EOSE does not let it through |
| VetoCoverage.MissedIff | src/cinderella/veto-notices.ts:176-181 | a NIP-59 wrap can be missed by a listener whose last REQ before the first point started at u if and only if that REQ does not let it through |
| VetoCoverage.NoneMissedIff | src/cinderella/veto-notices.ts:176-181 | no wrap that it lets through is missed in any run if and only if relays are late by less than 61 s |
| VetoNotices.JunkLeavesNoMark | src/cinderella/veto-notices.ts:91-92 | what is no verified notice of a configured node changes nothing |
| VetoNotices.NoticeApplies | src/cinderella/veto-notices.ts:159-173 | after a notice its row is still held if and only if it was and the wrap was already on record |
| VetoNotices.NoticeVetoes | src/cinderella/veto-notices.ts:94-105 | a genuine notice not on record vetoes the held rows of its event, naming the node, and leaves every other row |
| VetoNotices.RecordsLastThreeDays | src/cinderella/veto-notices.ts:164-170 | it is recorded with the time, and of the other records exactly those at most 3 days old stay, as they were |
| VetoNotices.RecordStays | src/cinderella/veto-notices.ts:111-169 | over any run of wraps up to t + 3 days a record of time t stays as it is |
| VetoNotices.ReplayChangesNothing | src/cinderella/veto-notices.ts:159-173 | so over any such run a replay of that wrap changes neither the rows nor the record |
| VetoNotices.OldRecordIsDropped | src/cinderella/veto-notices.ts:167 | a record more than 3 days old goes with the next notice |
| VetoNotices.EarlyNoticeIsLost | src/cinderella/veto-notices.ts:159-173 | a notice before the hold is recorded, and its replay leaves the event held, of whatever kind |
| VetoNotices.NoticeStore.AdvanceTo | src/cinderella/veto-notices.ts:151-157 | the loop stores exactly the advanced points, and nothing for an empty list |
| VetoNotices.NoticeStore.HandleWrap | src/cinderella/veto-notices.ts:94-173 | the wrap's handling in place; no outcome exactly when it is malformed or known; else the outcome by what is wrong with it, verification before sender before contents, or by whether its event is held |
| TokenBucket.MessagePays | src/server.ts:686-702 | a message let through costs one token of credit, and credit never exceeds a full burst |
| TokenBucket.WindowBound | src/server.ts:671-702 | of one socket's messages in any window [s, t] at most burst + rate * (t - s) / 1000 are let through |
| TokenBucket.BurstIsExact | src/server.ts:686-702 | at any moment a burst is let through exactly up to what is on hand |
| TokenBucket.NewSocketHasABurst | src/server.ts:686-693 | of messages at one moment a new socket gets exactly a full burst through |
| TokenBucket.WaitingEarns | src/server.ts:694-698 | after a spent burst and a pause of d ms exactly floor(d * rate / 1000) of them pass, at most a burst |
| TokenBucket.WaitingIsKept | src/server.ts:694-698 | asking in vain does not put off the next token |
| TokenBucket.AcceptedInCounts | src/server.ts:699-701 | the count of the window bound is the number of messages let through |
| TokenBucket.RateLimiter.TryConsumeWsToken | src/server.ts:686-702 | the function in place on one socket's bucket, the others untouched |
| EventLog.HashesResolve | src/db/ui-event-log.ts:239-295 | over any appends and prunes every entry's hash resolves to the text it is the hash of |
| EventLog.AppendedEntry | src/db/ui-event-log.ts:239-295 | the new entry in every column and its blob: type and message trimmed, the data whole up to 200,000 bytes and else a summary of it, the preview at most its first 2,048 characters |
| EventLog.Utf8Adds | src/db/ui-event-log.ts:252 | the length in bytes of joined texts is the sum of theirs |
| EventLog.Utf8OfOne | src/db/ui-event-log.ts:252 | of one character 1 to 4, by its code |
| EventLog.PruneLeavesNoOrphan | src/db/ui-event-log.ts:421-437 | prune leaves exactly the newer entries and exactly the blobs they refer to |
| EventLog.NewestSelects | src/db/ui-event-log.ts:305-318 | a listing selects exactly the matching entries before the cursor |
| EventLog.OldestSelects | src/db/ui-event-log.ts:368-398 | an export selects exactly the matching entries in the range |
| EventLog.Asked | src/db/ui-event-log.ts:300 | the types asked for are exactly the given ones trimmed, without the blank |
| EventLog.ListSizes | src/db/ui-event-log.ts:298-346 | a page has as many entries as there are matches, at most the limit, which is 200 unless given and between 1 and 500; exactly a full page has a cursor |
| EventLog.ChunkSizes | src/db/ui-event-log.ts:363-415 | the same for a chunk, with 1,000 and 5,000 |
| Basics.TrimIs | src/db/ui-event-log.ts:242-243 | trimming takes off exactly the white space at either end |
| EventLog.NewestSplits | src/db/ui-event-log.ts:345-346 | what a page leaves is the listing from its last entry |
| EventLog.OldestSplits | src/db/ui-event-log.ts:415-416 | what a chunk leaves is the export after its last entry |
| EventLog.NewestDescends | src/db/ui-event-log.ts:317-318 | a listing is strictly newest first, so no entry comes twice |
| EventLog.OldestAscends | src/db/ui-event-log.ts:394-398 | an export is strictly oldest first, so no entry comes twice |
| EventLog.AppendsAreGrowth | src/db/ui-event-log.ts:283-294 | appends only extend the log and number new entries beyond any earlier bound |
| EventLog.ListingVisitsAll | src/db/ui-event-log.ts:297-347 | following nextBeforeSeq visits every matching entry of the start, in order, whatever is appended meanwhile, and ends |
| EventLog.ExportVisitsAll | src/db/ui-event-log.ts:362-417 | following nextAfterSeq under a fixed untilSeq does the same for an export |
| EventLog.ListingUnderPrunes | src/db/ui-event-log.ts:297-347 | while entries are appended and pruned it visits nothing twice, only matching entries of the start, and every one of these that survives |
| EventLog.ExportUnderPrunes | src/db/ui-event-log.ts:362-417 | the same for an export under a fixed untilSeq |
| EventLog.EventLogStore.AppendEntry | src/db/ui-event-log.ts:239-295 | one new entry with the returned number and hash, whose blob is stored |
| EventLog.EventLogStore.PruneEntries | src/db/ui-event-log.ts:421-437 | nothing and null when there is no cutoff; else the pruned tables and how much was deleted |
| NostrRelay.MatchTags | src/util/nostr.ts:170-186 | true exactly when every tag of a filtered name holds all the filter's values |
| NostrRelay.FilterFits | src/util/nostr.ts:141-167 | an event matches if and only if listed ids, authors and kinds include its own, it lies between since and until, and every tag whose name is the first letter of an entry holds all its values |
| Sorting.SortPermutes | src/class/relay.ts:99-105 | sorting gives a permutation |
| Sorting.SortSorts | src/class/relay.ts:99-105 | by a total order it gives a sorted list |
| NostrRelay.MissingTagPasses | src/util/nostr.ts:170-186 | an event without the tag passes, which NIP-01 does not allow |
| NostrRelay.TagRulesAgreeIff | src/util/nostr.ts:170-186 | where listed values stand only first in tags, the rule is NIP-01's if and only if the filter lists a value, the event has a tag of the name, and, if a listed value stands in one, all such tags (there may be several) and all listed values are that one value |
| NostrRelay.AcceptsTooMuchIff | src/util/nostr.ts:170-186 | wherever values stand, the relay accepts what NIP-01 does not if and only if the filter lists no value, the event lacks the tag, or every tag of the name holds all listed values in later places only |
| NostrRelay.LaterValuesPass | src/util/nostr.ts:170-186 | a tag with another value first and the listed ones after it is such an input |
| NostrRelay.RefusesTooMuchIff | src/util/nostr.ts:170-186 | NIP-01 accepts what the relay does not if and only if one tag of the name has a listed value first and one, the same or another, lacks a listed value |
| NostrRelay.SecondTagRefuses | src/util/nostr.ts:170-186 | of several tags of the name one with another value makes the relay refuse what NIP-01 accepts |
| NostrRelay.SortIsDetermined | src/class/relay.ts:99-105 | where ids tell events apart there is only one such order |
| NostrRelay.AnswerFilter | src/class/relay.ts:240-261 | the loop with its counter sends exactly the first `limit` matches of the cache in order, all without a limit, none for a limit that is not positive |
| NostrRelay.MatchesSelects | src/class/relay.ts:244-250 | the matches are exactly the events that fit, each as often as it is cached |
| NostrRelay.MatchesAreSorted | src/class/relay.ts:244-250 | they come newest first |
| NostrRelay.CacheIsWhatWasKept | src/class/relay.ts:89-106 | over any run the cache is newest first, by id on equal times, and holds exactly the genuine events since the last purge whose kind is not 20000 to 29999 |
| NostrRelay.UidInjective | src/class/relay.ts:279 | a key names one session id and one subscription name |
| NostrRelay.MapIsUnionOfSessions | src/class/relay.ts:141-148 | with unused session ids the map is exactly the union of the open sessions' subscriptions, conn counts them, and nothing is left after the last |
| NostrRelay.SharedSidLosesSubs | src/class/relay.ts:122 | whenever two open sessions share an id that fails for the same name requested by both |
| NostrRelay.OrderListsEachOnce | src/class/relay.ts:275-287 | the map's key order lists every subscription once, over any run |
| NostrRelay.EachSubscriptionGetsItsCopies | src/class/relay.ts:203-229 | a genuine event is acknowledged first and then sent to every open subscription once per matching filter |
| NostrRelay.NobodyElseGetsIt | src/class/relay.ts:203-229 | after the acknowledgement every message carries the event to a subscription an open session lists |
| NostrRelay.MatchingCounts | src/class/relay.ts:222-227 | a subscription's copies are as many as its filters that fit |
| NostrRelay.ReqIsAnswered | src/class/relay.ts:231-265 | a REQ enters the subscription under its session and name, in place of an older one; the client, and nobody else, gets filter by filter the newest cached events that fit, up to the limit, and then one EOSE |
| NostrRelay.NoticeOnly | src/class/relay.ts:162-190 | a REQ without filters and what is no message are answered with a NOTICE and change nothing; an EVENT that is none is not answered |
| NostrRelay.ForgedEventIsRefused | src/class/relay.ts:207-211 | an event that does not verify is refused, neither stored nor forwarded |
| NostrRelay.CloseRemoves | src/class/relay.ts:194-197 | CLOSE removes exactly that subscription |
| NostrRelay.SessionsComeAndGo | src/class/relay.ts:73-148 | a session starts without subscriptions and takes exactly its own along |
| NostrRelay.PurgeEmpties | src/class/relay.ts:91-93 | the purge empties the cache and nothing else |
| NostrRelay.RelayObject.HandleReq | src/class/relay.ts:231-265 | registers the subscription and sends each filter's answers before one EOSE |
| NostrRelay.RelayObject.HandleEvent | src/class/relay.ts:203-229 | acknowledges, stores unless ephemeral, forwards |
| NostrRelay.RelayObject.CleanupSession | src/class/relay.ts:141-148 | the loop removes every subscription of the session, then the session |
| PeerPolicy.StrictIsCanonical | src/frostr/policy.ts:25-49 | an accepted key is 64 characters out of 0123456789abcdef |
| PeerPolicy.StrictIs | src/frostr/policy.ts:25-49 | after trimming and decoding an npub exactly the keys of 64 hex digits, bare or after 02 or 03, are accepted, in lower case; which error the others give |
| PeerPolicy.LooseIs | src/frostr/policy.ts:51-61 | the forgiving normaliser yields the same for these, and anything else trimmed in lower case |
| PeerPolicy.LooseKeepsCanonical | src/frostr/policy.ts:51-61 | the forgiving normaliser leaves such a key alone |
| PeerPolicy.NormalisersAgree | src/frostr/policy.ts:25-61 | both name a peer alike unless the key is an npub |
| PeerPolicy.InputSets | src/frostr/policy.ts:84-90 | in each direction an input sets the first value given of its own, its short and its nested field, or true |
| PeerPolicy.Collect | src/frostr/policy.ts:106-118 | the collected map lists every key once |
| PeerPolicy.CollectsAllOrNothing | src/frostr/policy.ts:106-118 | a call is accepted if and only if none of its inputs is bad |
| PeerPolicy.CallFails | src/frostr/policy.ts:232-254 | a call with a bad input fails with the error of the first one; one without, on a node without config, for that |
| PeerPolicy.CollectsLast | src/frostr/policy.ts:111-115 | of several inputs for a key the last one counts |
| PeerPolicy.ConfigReadsBack | src/frostr/policy.ts:183-196 | the list written to the config reads back as the map it was written from |
| PeerPolicy.ViewsTrackLastWriter | src/frostr/policy.ts:164-276 | after a replacing call and any others, the config list and every peer object show the last writer's policy or the default |
| PeerPolicy.QueriesAgree | src/frostr/policy.ts:312-334 | so do canSendToPeer and canReceiveFromPeer for every key they accept |
| PeerPolicy.QueryDecides | src/frostr/policy.ts:312-334 | on any node the config's last entry for the key decides; without one the first peer of that key; without that both directions are allowed |
| PeerPolicy.PeersFollowCall | src/frostr/policy.ts:164-181 | after any call that goes through a peer has what the call sets for its key, or when merging the config, or its own, and else both directions allowed |
| PeerPolicy.SummariesListAll | src/frostr/policy.ts:278-302 | getNodePolicies lists exactly the peers and the keys that were set |
| PeerPolicy.SummariesAgree | src/frostr/policy.ts:278-302 | and shows the last writer's policy or the default for each |
| PeerPolicy.SummariesAreSorted | src/frostr/policy.ts:301 | its list is in the order of the keys |
| PeerPolicy.ListedOnceIffPeersDiffer | src/frostr/policy.ts:278-302 | each key is listed once if and only if no two peers normalise to one key |
| PeerPolicy.NormalizePolicies | src/frostr/policy.ts:106-118 | the loop collects the inputs or stops with the first error |
| PeerPolicy.PolicyNode.SyncPeersWithPolicies | src/frostr/policy.ts:164-181 | every peer gets the map's policy for its key; without one it keeps its own when merging, and gets both directions allowed otherwise |
| PeerPolicy.PolicyNode.SetNodePolicies | src/frostr/policy.ts:232-267 | the new config and peers and their summaries, or an error with the node unchanged |
| PeerPolicy.PolicyNode.GetNodePolicies | src/frostr/policy.ts:278-302 | peers first, then the config's other keys, then sorted by key |

## Left out

- Signatures, hashes and encryption: event ids and content hashes are symbolic and injective; what unwrapping a gift wrap yields is an input.
- bifrost itself: only the pool rules named above, and that a peer can sign with more than the critical number of nonces held.
- Sockets, SQL text, timers and the clock: steps, tables, fresh numbers for row, socket, subscription and timer ids, and times given from outside.
- Fractions of a millisecond, and the rounding of floating point in the token bucket (`elapsed * rate` is exact here).
- `last_error`, reason strings, log lines, `created_at` and `updated_at` columns, `listHeld`, `heldMessage`, choosing and reaching publish relays.
- Parsing of `HELD_KINDS`, `HELD_RETRY_*`, `NODE_ALERT_PUBKEYS`, relay lists and refusal strings; configurations are taken in their validated ranges.
- The relay-side half of a dead connection before the idle limit notices it: catch-up coverage is stated for what the relay really delivered.
- `ignore_stale_messages`, `close_node`, the announcement of a nonce reset: in `NonceNetwork` any message may be lost, late or repeated, in `NonceResync` lost or late.
- HeldStore.SupersededByAsNewAnEvent: about the moment of the hold; a later cancel or veto of the newer row leaves the older one superseded.
- VetoCoverage.CatchUpCoverage: relays are taken to send what they hold within less than 61 s, before an EOSE counts or a point is advanced; nothing else about them is assumed.
- `sanitizeForPersistence`, `truncateString`, `getBlob` and the exact length in bytes of a summary in the event log.
- Connections of the feed, peers of a node and sessions of the relay are values in lists and maps of their owner: update in place is modelled, sharing of references is not.
- Relay messages are given parsed; a fractional `limit` in a REQ and ids in upper-case hex are not modelled.
- UTF-16: texts are cut by whole characters, where JavaScript counts code units, so previews may end elsewhere in texts beyond the Basic Multilingual Plane.
- npub decoding and `localeCompare` are functions given from outside; labels, roles, notes and metadata of policies.
- `toLowerCase` beyond ASCII on keys that are no hex, which the strict normaliser never accepts.
- The UI, HTTP routes, authentication and the node manager: no deep invariant.
