# NETRA: verified models

NETRA is a continuous-trust control plane written in Go with an endpoint agent written in Rust. This
project models its protocols, its decision pipeline and its record keeping in Dafny and proves what
they keep over every input, every run and every interleaving.

`dafny verify dfyconfig.toml` checks the whole project.

| module | models |
|---|---|
| `EventQueues` | the agent's bounded event queue |
| `Telemetry` | normalization, batch accounting and deduplicating inserts on the server |
| `Delivery` | agent loop, wire and server as one protocol: at-least-once sending, lost and late replies, eviction, revocation |
| `RateLimiter` | the fixed-window limiter and its sliding-window bound |
| `CivilTime` | the civil-date algorithm against the Gregorian calendar, and the printed timestamp |
| `Audit` | the hash-chained log: verification, paging, tamper evidence, concurrent writers |
| `Replay`, `Sessions` | single-use nonces for device requests and for session attestation, with pruning |
| `Enrollment` | enrollment across crashes and late server processing |
| `Signing` | the two signed messages and their decoders |
| `Posture`, `Risk`, `RiskCodes`, `Policies`, `Pipeline` | from device posture to risk score, factor by factor, band and policy decision; monotonicity across all of them |
| `Baseline` | behavioural profiles and how many of their own sessions they can flag |
| `Lifecycle` | what evaluations do to sessions, their sensitivity, and incidents |
| `Common`, `Ordering` | shared definitions; stable sorting and string order |

Objects whose methods update fields are classes; tables are maps or sequences held by a class; a
transaction or a row lock is one atomic step. Each class method is tied to a function of the old
state, and the theorems over whole runs are about those functions.

## Where the code and its comments differ

The model follows the code. These points are lemmas or contracts of the project.

- Storing the key before sending is said to rule out a device record that can never authenticate
  (agent/netra-agent/src/enrollment.rs:65-69). It does not when the server processes a request after
  the agent gave up and cleared the key: `Enrollment.LateProcessingOrphansDevice`. The exact condition
  is `Enrollment.KeyOnDiskAtRegistrationIff`.
- The device is looked up after the body was read, the skew checked before. So a request may be
  accepted that at no single moment would have passed every check: `Replay.AcceptedWereChecked`
  names the two moments, `Replay.NoSingleMomentNeeded` shows one does not suffice.
- The twice-the-window cutoff protects a request only while its own handling takes at most one window
  between skew check and nonce insert: `Replay.ReplayProtectionIff`.
- `OpenOrEscalate` is described as returning the open incident or creating one
  (backend/internal/incident/incident.go:79-84). A closed incident of that key is returned and stays
  closed: `Lifecycle.Store.OpenOrEscalate`, `Lifecycle.OnlyAnalystsSetStatus`. The key is a prefix of
  the session id, so all incident statements are per key.
- Sensitivity is described as cumulative (backend/internal/trust/evaluator.go:254-256). What an
  evaluation uses can drop in two ways: a failed query is answered INTERNAL, whatever the session
  reached; and a session without events, INTERNAL at first, becomes PUBLIC, which its own first
  evaluation causes. `Lifecycle.PeakDropsIff` is the exact condition, `Lifecycle.FailedReadForgetsResource`
  and `Lifecycle.EvaluationLowersUntouchedSession` say what each case does.
- Neither insert of backend/internal/telemetry/store.go names a resource, so only events written by
  other means can make a session sensitive: `Lifecycle.WithoutResourcesNeverSensitive`.
- `applyDecision` answers the status it asked for even when an ended session keeps its own; and
  ISOLATED can become RESTRICTED: `Lifecycle.Store.ApplyDecision`, `Lifecycle.StatusIsItsHistory`.
- Degraded mode never selects fail-open, so it never answers ALLOW: `Policies.Degraded`.
- An event whose identifier trims to nothing is stored again on each retry:
  `Telemetry.RetryIsIdempotentIff`.
- Cutting records off the end of the audit log goes unnoticed (`Audit.TruncationUndetected`), and
  `Verify` starts after seq 0, so it does not look at rows with seq 0 or below (`Audit.Store.Verify`).
- `splitVersion` skips characters that are neither digits nor dots: `Posture.SplitVersion`.

## Assumptions

- SHA-256, Ed25519, JSON encoding and random generation are parameters. No theorem assumes a hash
  without collisions: it says "or these records exhibit a collision". `Audit.Shaped` states what is
  used of the encoding: digests have 32 bytes, an encoded entry starts with `{` and has no `{` at
  offset 32, which lies in the leading timestamp, the punctuation after it or the name `actor_type`. Random nonces, event identifiers and
  database identifiers are fresh.
- Floating point is modelled by reals, the square root by its defining equation.
- Integers, times and durations are unbounded; server clocks do not run backwards where a theorem
  says so.
- Resources do not change their sensitivity, and events are never deleted: no code does either.

## Model

| member | source | states |
|---|---|---|
| `EventQueues.KeepNewestIsLongestFittingSuffix` | agent/netra-core/src/queue.rs:65-91 | eviction from the front leaves exactly the longest suffix that fits both bounds: a suffix fits if and only if it is no longer than what is kept |
| `EventQueues.KeepOldestIsLongestFittingPrefix` | agent/netra-core/src/queue.rs:109-130 | trimming from the back leaves exactly the longest prefix that fits both bounds |
| `EventQueues.PushKeepsNewEvent` | agent/netra-core/src/queue.rs:65-91 | an event that is not oversized always survives its own push, as the last element |
| `EventQueues.DrainThenRequeueIsIdentity` | agent/netra-core/src/queue.rs:94-130 | draining any number of events and requeueing them at once restores the queue |
| `EventQueues.EventQueue.constructor` | agent/netra-core/src/queue.rs:52-60 | both bounds are clamped to at least one; the queue starts empty |
| `EventQueues.EventQueue.Push` | agent/netra-core/src/queue.rs:65-91 | the new contents are the longest fitting suffix of old contents plus event; an oversized event changes nothing; the return value and `dropped_total` count exactly the losses; `bytes` stays the sum of sizes |
| `EventQueues.EventQueue.Drain` | agent/netra-core/src/queue.rs:94-104 | batch followed by the rest is the old contents, with `min(max, len)` events taken |
| `EventQueues.EventQueue.RequeueFront` | agent/netra-core/src/queue.rs:109-130 | the new contents are the longest fitting prefix of the batch (without oversized events) followed by the queue; dropped plus queued accounts for every event handed back |
| `EventQueues.EventQueue.Stats` | agent/netra-core/src/queue.rs:149-157 | length and bytes are those of the contents and within the reported capacities |
| `Telemetry.Normalize` | backend/internal/telemetry/event.go:141-200 | refuses exactly unknown types and severities and oversized ids and metadata; an accepted row has the trimmed id or none, the severity or INFO, the receipt time, and the claimed time if within 24 hours of it, otherwise the receipt time with the claim kept |
| `Telemetry.Classify` | backend/internal/telemetry/store.go:40-75 | the first loop yields exactly the rows and the rejections of the batch, in order |
| `Telemetry.BatchIsPartitioned` | backend/internal/telemetry/store.go:40-93 | rows plus rejections make up the batch, and the rejections are exactly those naming an unacceptable event by index and id |
| `Telemetry.InsertAllPreserves` | backend/internal/telemetry/store.go:95-130 | inserting only appends, keeps (device, event id) unique, and adds at most one row per event |
| `Telemetry.InsertAllCovers` | backend/internal/telemetry/store.go:95-130 | afterwards every identified event of the batch is present under its key |
| `Telemetry.InsertAllSource` | backend/internal/telemetry/store.go:95-130 | every stored row was there before or comes from the batch |
| `Telemetry.RetryIsSameSubmission` | backend/internal/telemetry/store.go:53-76 | one batch ingested at two times yields rows with the same device and identifier, position by position |
| `Telemetry.RetryIsIdempotentIff` | backend/internal/telemetry/store.go:40-130 | one batch ingested again, at any other time, stores nothing new if and only if every event it gets accepted has a non-blank identifier |
| `Telemetry.Store.Insert` | backend/internal/telemetry/store.go:95-130 | one transaction: conflicting rows are skipped, the count is the growth of the table, a failed commit leaves no trace |
| `Telemetry.Store.Ingest` | backend/internal/telemetry/store.go:40-93 | accepted + duplicates + rejected equals the batch length; refused and failed batches change nothing |
| `Delivery.FailedSendRestoresQueue` | agent/netra-agent/src/main.rs:406-437 | a failed send puts back exactly what was taken: nothing dropped, nothing reordered, in every reachable state |
| `Delivery.InvOverRuns` | agent/netra-agent/src/main.rs:369-446 | the agent, wire and server invariants hold after every run of pushes, sends, late or repeated ingests, other devices' ingests, lost replies and revocation |
| `Delivery.DeliveryIsAccountedFor` | agent/netra-agent/src/main.rs:369-446 | over every run, whatever rows the server held before (those of an earlier run of the same device included): no identified event is stored twice; every pushed event is queued, in flight, evicted and counted in `dropped_total`, in the one batch abandoned on Unauthorized, stored since the run began, or refused by the server; contents stay in push order and within bounds |
| `Delivery.Agent.CollectTick` | agent/netra-agent/src/main.rs:369-446 | one collect tick: everything collected is pushed; an enrolled, unlatched agent sends the first min(batchMax, queued) events; a failed send leaves the queue as collection left it, any other removes exactly that batch; only Unauthorized latches; drops are counted exactly |
| `Delivery.TickIsProtocol` | agent/netra-agent/src/main.rs:369-446 | a tick is a run of the protocol's steps: same queue, latch, drop count and batch on the wire, whatever the server does between sending and reply |
| `RateLimiter.Limiter.Allow` | backend/internal/httpapi/ratelimit.go:49-61 | the table after a call, and admission exactly while the window's count is within the limit |
| `RateLimiter.Limiter.Prune` | backend/internal/httpapi/ratelimit.go:65-74 | removes exactly the buckets whose window has closed and leaves the others untouched |
| `RateLimiter.AnswersMatchSolo` | backend/internal/httpapi/ratelimit.go:49-74 | for every call sequence with a non-decreasing clock a key is answered as if it were alone and nothing were ever pruned |
| `RateLimiter.AdmittedIff` | backend/internal/httpapi/ratelimit.go:49-61 | a call is admitted if and only if it is among the first Requests calls of its window, a window being opened by the first call that comes more than Window after the one that opened the last |
| `RateLimiter.AnswersDependOnlyOnOwnCalls` | backend/internal/httpapi/ratelimit.go:49-74 | keys never affect each other: answers depend on the times of the key's own calls only |
| `RateLimiter.PruningIsInvisible` | backend/internal/httpapi/ratelimit.go:65-74 | leaving out every prune call changes no answer |
| `RateLimiter.SlidingWindowBound` | backend/internal/httpapi/ratelimit.go:49-74 | in any closed interval of length Window a key is admitted at most 2·Requests − 1 times |
| `RateLimiter.BoundIsReached` | backend/internal/httpapi/ratelimit.go:49-61 | for every positive limit some call sequence reaches 2·Requests − 1, so the bound is exact |
| `CivilTime.DayNumberCountsDays` | agent/netra-agent/src/enrollment.rs:160-172 | the reference day count is 0 at the epoch and grows by one from each calendar day to the next |
| `CivilTime.DayNumberMonotone` | agent/netra-agent/src/enrollment.rs:160-172 | earlier dates have smaller day numbers |
| `CivilTime.CivilRoundTrip` | agent/netra-agent/src/enrollment.rs:161-172 | for every day number, negative ones included, the algorithm yields a valid Gregorian date whose day count is that number |
| `CivilTime.DayNumberRoundTrip` | agent/netra-agent/src/enrollment.rs:161-172 | for every valid date the algorithm inverts the day count |
| `CivilTime.CivilSuccessor` | agent/netra-agent/src/enrollment.rs:161-172 | successive day numbers are successive calendar dates |
| `CivilTime.CivilMonotone` | agent/netra-agent/src/enrollment.rs:161-172 | later day numbers are later dates |
| `CivilTime.FormatIsRfc3339` | agent/netra-agent/src/enrollment.rs:145-158 | up to year 9999 the printed string is a date-time of section 5.6 of RFC 3339: the digit fields and separators, month 01-12, day within the month, hour 00-23, minute and second 00-59 |
| `CivilTime.FormatReadsBack` | agent/netra-agent/src/enrollment.rs:145-158 | its six fields, read as decimal numbers, stand for exactly the second it was printed for |
| `CivilTime.FormatSortsInTimeOrder` | agent/netra-agent/src/enrollment.rs:145-158 | up to year 9999 printed times sort as strings in time order |
| `Audit.CanonicalBytesSurviveStorage` | backend/internal/audit/audit.go:97-123 | normalizing is idempotent for hashing: what was hashed before the insert is what is hashed after reading back |
| `Audit.NormalizeMeaning` | backend/internal/audit/audit.go:97-106 | only time and result change: the time is rounded down to the microsecond, an absent result becomes SUCCESS and a given one survives |
| `Audit.EqualHash` | backend/internal/audit/audit.go:180-193 | equality of hashes, nil and empty alike |
| `Audit.VerifyChainFrom` | backend/internal/audit/audit.go:159-178 | returns the first fault of the chain, with its reason |
| `Audit.VerdictSplits` | backend/internal/audit/audit.go:155-178 | verifying a log in two parts is verifying it at once |
| `Audit.VerdictCleanIffIntact` | backend/internal/audit/audit.go:149-178 | verification succeeds if and only if numbers ascend, every record links to the one before and every hash is genuine |
| `Audit.VerdictNamesFirstBroken` | backend/internal/audit/audit.go:159-178 | a failure names the first record that breaks an otherwise intact prefix |
| `Audit.HeadHashCommits` | backend/internal/audit/audit.go:125-178 | two verifying logs with one head hash have the same length and canonical entries, or they exhibit a hash collision |
| `Audit.SameContentSameEntries` | backend/internal/audit/audit.go:97-123 | with an encoding that loses nothing, that means the same normalized entries |
| `Audit.AlterationDetected` | backend/internal/audit/audit.go:159-178 | changing the canonical content of one record is reported at exactly that record's seq, or exhibits a collision |
| `Audit.HashesDistinct` | backend/internal/audit/audit.go:125-137 | no two records of a verifying log share a hash, or the log exhibits a collision |
| `Audit.RemovalDetected` | backend/internal/audit/audit.go:159-178 | removing any record but the last is reported at the record after it, or the log exhibits a collision |
| `Audit.TruncationUndetected` | backend/internal/audit/audit.go:159-178 | every prefix of a verifying log verifies: cutting off the end is never detected |
| `Audit.NextPage` | backend/internal/audit/store.go:85-130 | asking for rows after the last row of a page yields exactly the remaining rows |
| `Audit.VerifyPages` | backend/internal/audit/store.go:133-159 | on a log that grows between the page queries, for any page size: the verdict on everything the last query could see, and a reported fault stays the verdict however the log grows |
| `Audit.Store.Append` | backend/internal/audit/store.go:35-82 | one append keeps the log intact and adds exactly the normalized entry; refusals and aborts add nothing |
| `Audit.Store.Verify` | backend/internal/audit/store.go:133-159 | on a log at rest, for any page size and any table contents, the verdict and first broken seq of one pass over the rows with positive seq |
| `Audit.ConcurrentLogVerifies` | backend/internal/audit/store.go:35-82 | with any number of writers interleaving lock, read-head, insert, commit and abort, the committed log verifies, never forks and only grows |
| `Audit.LogVerifiesFromEmpty` | backend/internal/audit/store.go:35-82 | from the empty log, after every run of the writers, the committed log verifies as a whole and page by page |
| `Replay.ValidateNonce` | backend/internal/device/signing.go:113-127 | accepts exactly 16 to 128 hexadecimal characters or dashes |
| `Replay.Store.ConsumeNonce` | backend/internal/device/store.go:306-318 | a nonce is recorded once per device; a second use changes nothing |
| `Replay.Store.PruneNonces` | backend/internal/device/store.go:323-329 | removes exactly the rows seen before the cutoff and counts them |
| `Replay.Store.Revoke` | backend/internal/device/store.go:288-300 | one-way; reports whether there was anything to revoke |
| `Replay.Store.Receive` | backend/internal/device/middleware.go:82-114 | before the body is read: headers present, nonce well formed, timestamp within the skew |
| `Replay.Store.Complete` | backend/internal/device/middleware.go:116-170 | after it: the device exists, is active and its key verifies, against the table as it is by then; the nonce is consumed last and only then does the table change |
| `Replay.Store.Authenticate` | backend/internal/device/middleware.go:72-180 | both halves with nothing in between: accepts exactly when every check passes and the nonce is unseen; a refused request leaves the table alone |
| `Replay.Store.PrunerTick` | backend/cmd/netrad/main.go:250-280 | the cutoff lies two skew windows back |
| `Replay.ReplayProtectionIff` | backend/internal/device/middleware.go:106-157 | in every interleaving of skew checks, device lookups, nonce inserts, pruning, enrollment and revocation each (device, timestamp, nonce) is accepted at most once if and only if the gap from skew check to nonce insert is at most one skew window |
| `Replay.ReplayRunWorks` | backend/cmd/netrad/main.go:262-265 | for every larger gap, the run that accepts one request twice |
| `Replay.AcceptedWereChecked` | backend/internal/device/middleware.go:82-157 | every accepted request had complete headers, a well-formed nonce and a timestamp within five minutes at one step of the run and, at a later step of the same handling, named a device that existed, was active and whose key verified it, the device it is counted against |
| `Replay.RevokedIsNeverAccepted` | backend/internal/device/middleware.go:131-139 | once a device is revoked, in every run, no request under its name is accepted except those whose lookup had already passed |
| `Replay.NoSingleMomentNeeded` | backend/internal/device/middleware.go:106-148 | a run that accepts a request although at no moment it would have passed all checks at once: its device was enrolled while the body arrived |
| `Sessions.Store.IssueNonce` | backend/internal/session/store.go:105-118 | a fresh nonce is stored for the user, unused, for two minutes |
| `Sessions.Store.ValidateNonceFormat` | backend/internal/session/attestation.go:70-80 | accepts exactly 64 lower-case hexadecimal characters |
| `Sessions.Store.Begin` | backend/internal/session/store.go:125-210 | the answer in the order of the checks; a session and a spent nonce together, or, on any refusal or failed write or commit, no change at all |
| `Sessions.Store.PruneNonces` | backend/internal/session/store.go:282-288 | removes exactly the nonces that expired before the cutoff and counts them |
| `Sessions.NonceIsSingleUse` | backend/internal/session/store.go:125-210 | over every interleaving of issue, begin, failed begin and prune a nonce opens at most one session, for the user it was issued to, at most two minutes after it was issued |
| `Sessions.SessionsAreAttested` | backend/internal/session/store.go:125-210 | over every run each session was opened by a well-formed request that a known, active device, heard from within fifteen minutes, had signed, and belongs to that device |
| `Sessions.UnattestedBeginChangesNothing` | backend/internal/session/store.go:125-160 | a request whose device is unknown, inactive or silent, or did not sign it, opens nothing and leaves its nonce as good as before |
| `Sessions.AttestedBeginSucceeds` | backend/internal/session/store.go:125-210 | a well-formed attested request with an unspent, unexpired nonce of its user opens a session |
| `Sessions.PruningIsInvisible` | backend/cmd/netrad/main.go:272-276 | pruning expired nonces never changes the outcome of any later Begin nor the sessions that exist |
| `Enrollment.Store.IssueEnrollmentToken` | backend/internal/device/store.go:126-148 | stores a fresh token digest for a lifetime of at most thirty days |
| `Enrollment.Store.Enroll` | backend/internal/device/store.go:154-219 | token and device change together or not at all, with the answer in the order of the checks |
| `Enrollment.Endpoint.Load` | agent/netra-agent/src/enrollment.rs:40-61 | an identity loads exactly when key and registration are both present |
| `Enrollment.Endpoint.Enroll` | agent/netra-agent/src/enrollment.rs:70-128 | nothing is sent unless the key was stored; success leaves a loadable identity of the generated key and the answered identifier; failure adds no registration |
| `Enrollment.LoadedIdentityIsRegistered` | agent/netra-agent/src/enrollment.rs:40-128 | from a fresh install against any server, with a crash possible between any two steps: a loaded identity is registered with that key's public half, and each token yields at most one device |
| `Enrollment.EnrollmentsWereGranted` | backend/internal/device/store.go:154-219 | over every run each enrollment had a complete request, a token issued, unspent and unexpired at that step, and a device identifier not yet taken |
| `Enrollment.KeyOnDiskAtRegistrationIff` | agent/netra-agent/src/enrollment.rs:63-108 | when the server processes a request its private key is on disk if and only if some step of the run stored that key and no later step stored another or cleared it |
| `Enrollment.KeyOnDiskWhileWaiting` | agent/netra-agent/src/enrollment.rs:63-108 | while the agent waits for an answer the private key is on disk |
| `Enrollment.LateProcessingOrphansDevice` | agent/netra-agent/src/enrollment.rs:63-108 | for every valid request a run that ends with its device registered and its private key gone |
| `Risk.FactorsSumToRawScore` | backend/internal/risk/engine.go:86-110 | the raised factors sum to the rounded positive signal points, and each contributes something positive |
| `Risk.SortKeepsSums` | backend/internal/risk/model.go:209-216 | sorting factors changes neither the total nor any dimension total |
| `Risk.Accumulate` | backend/internal/risk/engine.go:105-110 | the loop computes the sum and, per dimension, the sum of its factors |
| `Risk.Collect` | backend/internal/risk/engine.go:88-103 | the `add` calls keep exactly the signals that round to something positive |
| `Risk.ClampLargest` | backend/internal/risk/engine.go:112-119 | the first factor in order absorbs the excess, its dimension with it, and totals still reconcile |
| `Risk.LargestPays` | backend/internal/risk/engine.go:112-119 | that factor is one of the largest |
| `Risk.Evaluate` | backend/internal/risk/engine.go:86-138 | the score is min(100, sum of rounded positive points); whether or not the clamp bites the factors sum exactly to it, come largest first and by name, name exactly the raised signals and reconcile per dimension |
| `RiskCodes.SignalsByCode` | backend/internal/risk/engine.go:98-103 | the signals are those of the nineteen codes, each at most once, in this order, raised and charged as the table `Charge` says |
| `RiskCodes.FactorOfCode` | backend/internal/risk/engine.go:142-266 | for every input, weighting and code: exactly one factor with that code if its weighted, rounded points are positive, none otherwise, in its dimension and with exactly that contribution |
| `RiskCodes.FactorIsRaisedIff` | backend/internal/risk/engine.go:88-103 | a factor is raised if and only if its contribution is positive and the one its code has for these inputs |
| `RiskCodes.ScoreByCode` | backend/internal/risk/engine.go:105-121 | the score is the sum of the contributions of the nineteen codes, cut off at 100 |
| `RiskCodes.RoundIsNearest` | backend/internal/risk/engine.go:89-89 | rounding is to the nearest integer, halves up |
| `RiskCodes.BandMeaning` | backend/internal/risk/model.go:84-113 | which scores fall into which band and the action each band recommends |
| `Policies.NewEngine` | backend/internal/policy/policy.go:165-181 | holds exactly the enabled policies, lower priority number first, equal ones by id |
| `Policies.DecideIsMostRestrictive` | backend/internal/policy/policy.go:189-224 | the decision is the maximum severity over all matching policies, the flags the disjunction over them |
| `Policies.DecideExplains` | backend/internal/policy/policy.go:189-224 | the result lists the id and version of every match in engine order, and takes decision, reason, message, id and version from the last match of maximum severity, or is the default when nothing matches |
| `Policies.MatchesOfMeaning` | backend/internal/policy/policy.go:202-206 | the matches are exactly the engine's matching policies, in its order |
| `Policies.RangeMatches` | backend/internal/policy/policy.go:261-268 | a policy on the score alone matches exactly the scores from its minimum to its maximum; one without conditions matches everything |
| `Policies.Degraded` | backend/internal/policy/policy.go:228-259 | DENY if some matching policy is fail-closed, else RESTRICT for sensitive access, else ALLOW_MONITOR; ALLOW never |
| `Policies.Evaluate` | backend/internal/policy/policy.go:189-224 | live and degraded decisions, the live one most restrictive, with the policies it lists and the one it cites as stated by `DecideExplains` |
| `Policies.ResultIgnoresInputOrder` | backend/internal/policy/policy.go:165-224 | with distinct policy ids the whole result, cited policy and match list included, does not depend on input order |
| `Policies.AddingPoliciesIsMonotone` | backend/internal/policy/policy.go:189-259 | adding policies never gives a less restrictive decision, live or degraded, and drops no flag |
| `Policies.NextVersionIsFresh` | backend/internal/policy/store.go:51-81 | the next version is 1 or one more than an existing version of that policy, and above all of them |
| `Policies.ActiveSelectsHighestEnabled` | backend/internal/policy/store.go:20-32 | exactly the highest enabled version of each policy id, so ids are distinct |
| `Policies.Store.Create` | backend/internal/policy/store.go:51-81 | refuses exactly the invalid policies, changing nothing; otherwise appends one row under a fresh version and rewrites none |
| `Posture.SplitVersion` | backend/internal/posture/score.go:253-275 | the parts of a version, non-digits skipped, an empty version being [0] |
| `Posture.SplitMeaning` | backend/internal/posture/score.go:253-275 | the parts are the digit values of the dot-separated segments, in order; only a last segment without digits, after a dot, is dropped |
| `Posture.SegmentsMeaning` | backend/internal/posture/score.go:253-275 | the segments joined by dots give the version back and none of them holds a dot |
| `Posture.CompareVersions` | backend/internal/posture/score.go:233-251 | three-way comparison with missing parts read as zero |
| `Posture.CompareMeaning` | backend/internal/posture/score.go:233-251 | less means: at the first differing part, the smaller number; equal means equal in every part |
| `Posture.CompareIsTotalPreorder` | backend/internal/posture/score.go:233-251 | reflexive, antisymmetric in sign and transitive |
| `Posture.CompareIgnoresTrailingZero` | backend/internal/posture/score.go:233-275 | whatever follows a dot is ignored on either side as long as it holds no digit but zero: ".0", ".00", ".0.0" or a bare dot |
| `Posture.Evaluate` | backend/internal/posture/score.go:83-126 | for valid weights the score is the sum of the contributions, so the clamp never bites; always within 0..100; verified exactly if every factor is |
| `Posture.FactorMeaning` | backend/internal/posture/score.go:83-228 | every control has exactly one factor, carrying what that control is worth for these signals out of its own weight, verified exactly for device identity and agent health |
| `Posture.TrustIsMonotone` | backend/internal/posture/score.go:83-228 | turning a control on, strengthening the key, a healthier agent or a newer OS version never lowers the score |
| `Posture.SortByShortfall` | backend/internal/posture/signals.go:120-124 | the in-place insertion sort is the stable sort by shortfall |
| `Posture.Weakest` | backend/internal/posture/signals.go:111-129 | the first `limit` of the stable descending sort of the positive shortfalls |
| `Posture.RankingMeaning` | backend/internal/posture/signals.go:109-129 | that ranking is sorted, a permutation of exactly the lacking factors, stable, and leaves out nothing worse than what it keeps |
| `Pipeline.ScoreIsMonotone` | backend/internal/risk/engine.go:86-266 | worsening any input never lowers the score, for all valid weights |
| `Pipeline.BandsAreMonotone` | backend/internal/risk/model.go:84-113 | a higher score never gets a lower band or a milder recommended action |
| `Pipeline.DecisionIsMonotone` | backend/internal/policy/defaults.go:9-110 | worsening any risk input or raising sensitivity, with baseline and network knowledge fixed, never lowers score, band, recommended action, the shipped policies' decision severity, or the incident and alert flags, for all valid weights and thresholds |
| `Pipeline.ShippedDecision` | backend/internal/policy/defaults.go:9-110 | the shipped rules in closed form: DENY if unattested, else ISOLATE in the critical band, else RESTRICT for a critical resource from score 51, else STEP_UP_MFA in the high band or for a new device on a sensitive resource, else by band; and exactly when an incident and an alert are raised |
| `Pipeline.KeyFactors` | backend/internal/risk/engine.go:142-159 | the two factors the shipped rules key on are raised exactly when their input says so and the weight does not round them away |
| `Pipeline.BetterDeviceNeverHarsher` | backend/internal/trust/evaluator.go:188-206 | a control turned on, a stronger key, a healthier agent or a newer OS version never raises the session's risk or band nor makes its decision harsher, with the trust score stored at report time, the key protection and the heartbeat as of the evaluation all taken from that device, for the key protections the devices table admits |
| `Baseline.MeanAndStdDev` | backend/internal/behaviour/baseline.go:147-168 | mean and population standard deviation; 0 below two values |
| `Baseline.SortedKeys` | backend/internal/behaviour/baseline.go:170-177 | the keys of the set, strictly ascending, whatever order the map is walked in |
| `Baseline.Build` | backend/internal/behaviour/baseline.go:53-92 | hour counts, known names, statistics and establishment as the observations determine them |
| `Baseline.ProfileIgnoresOrder` | backend/internal/behaviour/baseline.go:53-92 | every reordering of the observations gives the same profile |
| `Baseline.IsTypicalHour` | backend/internal/behaviour/baseline.go:99-112 | typical exactly if no baseline is established or the hour or a neighbour around midnight was used |
| `Baseline.ZScoreMeaning` | backend/internal/behaviour/baseline.go:134-144 | the distance above the mean in standard deviations, 0 at or below it, without a baseline, or without spread |
| `Baseline.HourIsClockHour` | backend/internal/behaviour/baseline.go:71-71 | the hour of a session is the hour of day in UTC |
| `Baseline.AtMostOneTenthBeyondThreeSigma` | backend/internal/behaviour/baseline.go:147-168 | one-sided Chebyshev bound over the population variance: at most a tenth of the values lie three deviations above the mean |
| `Baseline.FewSessionsAbnormalInOwnBaseline` | backend/internal/behaviour/baseline.go:134-144 | at most one tenth of the sessions a baseline was built from reach z ≥ 3 against it |
| `Lifecycle.Store.ApplyDecision` | backend/internal/trust/evaluator.go:285-307 | the new state; the answered status is the stored one if and only if it is not a restricting decision on an ended session |
| `Lifecycle.Store.EndSession` | backend/internal/session/store.go:215-226 | ends exactly the owner's own session that has not ended yet |
| `Lifecycle.Store.RecordEvent` | backend/internal/telemetry/store.go:134-154 | appends one event row |
| `Lifecycle.Store.OpenOrEscalate` | backend/internal/incident/incident.go:85-109 | a new key opens one incident with the given fields; a known key keeps identity, status and times, takes the greater risk, and the new severity only with a greater risk; the answer is open if and only if the key had no closed incident |
| `Lifecycle.KeySharedIff` | backend/internal/incident/incident.go:88-88 | two sessions share an incident key exactly if the first 18 characters of their ids agree |
| `Lifecycle.Store.SetIncidentStatus` | backend/internal/incident/incident.go:185-198 | sets status and closing time of the named incident; reports whether it exists |
| `Lifecycle.Store.Evaluate` | backend/internal/trust/evaluator.go:89-154 | scores the gathered inputs, with the sensitivity as far as it could be read, decides, and carries out exactly the listed statements; a failed incident write does not stop enforcement, a failed decision record or status write ends the evaluation; the reported status is the one asked for, or the stored one |
| `Lifecycle.Assess` | backend/internal/trust/evaluator.go:95-115 | the assessment and decision of the gathered inputs under the active policies |
| `Lifecycle.Statements` | backend/internal/trust/evaluator.go:117-143 | every escalation an evaluation sends carries the band of its score |
| `Lifecycle.StatusIsItsHistory` | backend/internal/trust/evaluator.go:281-307 | after any run a session is ended exactly if its user ended it, and otherwise has the status of the last restricting decision |
| `Lifecycle.VerdictFollowsSeverity` | backend/internal/trust/evaluator.go:285-299 | a decision restricts from RESTRICT on and isolates from ISOLATE on, DENY included; milder ones ask for nothing |
| `Lifecycle.EvaluationTakesEffect` | backend/internal/trust/evaluator.go:117-143 | what an evaluation whose writes work leaves behind: the session's status by the decision's severity, unless it had ended, and an incident covering the score exactly if the decision asks for one |
| `Lifecycle.NetworkNeedsBaseline` | backend/internal/trust/evaluator.go:227-231 | an unfamiliar network is charged only once a baseline exists |
| `Lifecycle.NeverReopened` | backend/internal/trust/evaluator.go:281-307 | ENDED is never left; a restricted or isolated session is never ACTIVE again |
| `Lifecycle.EnforcementSticks` | backend/internal/trust/evaluator.go:285-307 | once a restricting decision was applied, nothing later in any run makes the session active |
| `Lifecycle.PeakIsMostSensitive` | backend/internal/trust/evaluator.go:257-279 | the sensitivity is that of the most sensitive event; internal without events |
| `Lifecycle.PeakDropsIff` | backend/internal/trust/evaluator.go:254-279 | the sensitivity two evaluations use, at any two points of a run, drops if and only if the second one's query fails (answered INTERNAL) where the first saw a sensitive or critical resource, or the second sees only public or resource-free events where the first saw none or failed to read |
| `Lifecycle.ReachedSensitivityIsKept` | backend/internal/trust/evaluator.go:254-279 | once SENSITIVE or CRITICAL was reached, a later evaluation uses at least that sensitivity if and only if its query works |
| `Lifecycle.WithoutResourcesNeverSensitive` | backend/internal/telemetry/store.go:95-154 | while a session's events name no resource, as those of ingest and of the evaluator never do, it is INTERNAL before its first event and PUBLIC after |
| `Lifecycle.EvaluationLowersUntouchedSession` | backend/internal/trust/evaluator.go:312-354 | evaluating a session without events lowers its sensitivity from INTERNAL to PUBLIC, through the events the evaluation itself records |
| `Lifecycle.LaterEvaluationsAreNoMilder` | backend/internal/trust/evaluator.go:188-279 | once SENSITIVE was reached, a later evaluation whose query works, with no better inputs, is no milder in score, decision, incident or alert than an earlier one, whether or not that one's query worked |
| `Lifecycle.FailedReadForgetsResource` | backend/internal/trust/evaluator.go:266-268 | a failed query takes exactly the resource's points off the raw score; the score falls if and only if those points are positive and the rest alone stays below 100 |
| `Lifecycle.FailedReadIsNeverHarsher` | backend/internal/trust/evaluator.go:266-268 | for a session that reached a sensitive resource, a failed query never gives a harsher decision nor adds an incident or alert |
| `Lifecycle.IncidentIsItsHistory` | backend/internal/incident/incident.go:85-109 | per key: an incident exists exactly if escalated, its peak is the maximum escalated risk, its severity the band of that peak, and a closing time is set exactly in the closed statuses |
| `Lifecycle.OnlyAnalystsSetStatus` | backend/internal/incident/incident.go:85-198 | status and closing time are those last set by an analyst; escalations never reopen a closed incident nor open a second one, and the peak never falls |
| `Signing.RequestDecodesIff` | backend/internal/device/signing.go:62-72 | for every validated nonce and any path, newlines included, the signed string decodes to its fields if and only if the method holds no newline |
| `Signing.RequestLines` | backend/internal/device/signing.go:62-72 | without newlines in method and path the signed string has six lines: NETRA-v1, upper-cased method, path, decimal Unix time, nonce, hexadecimal digest |
| `Signing.SignatureBindsRequest` | backend/internal/device/signing.go:57-72 | two requests with the same signed string agree on upper-cased method, path, timestamp, nonce and body digest |
| `Signing.NewlineInMethodIsAmbiguous` | backend/internal/device/signing.go:62-72 | a newline in the method can be moved into the path without changing the signed string |
| `Signing.DecimalRoundTrip` | backend/internal/device/signing.go:68-68 | every printed Unix time, negative ones included, reads back |
| `Signing.HexRoundTrip` | backend/internal/device/signing.go:70-70 | every printed digest reads back |
| `Signing.HexShape` | backend/internal/device/signing.go:70-70 | two lower-case hexadecimal characters per byte |
| `Signing.AttestationDecodesIff` | backend/internal/session/attestation.go:56-58 | the attestation decodes to nonce and subject if and only if the nonce holds no newline, which every accepted nonce satisfies |
| `Signing.AttestationLines` | backend/internal/session/attestation.go:56-58 | without newlines in the subject the message has three lines: NETRA-attest-v1, nonce, subject |
| `Signing.RequestIsNoAttestation` | backend/internal/session/attestation.go:47-58 | no request string ever equals an attestation string, whatever the fields |

## Left out

- Telemetry.Store.Ingest: does not model the correlation of events to the device's active session; the model's rows carry their origin instead.
- Telemetry.Normalize: does not model the text of the two metadata entries a replaced time leaves; the claimed time is kept as a field instead, at full precision.
- Enrollment.Store.Enroll: does not model the 32-byte length check, since keys are symbolic.
- Policies.Evaluate: does not model the measured latency; a match is listed as the pair of id and version rather than as the printed `id@vN`; case folding is ASCII only, as all configured names are.
- Signing.RequestDecodesIff: does not model upper-casing beyond ASCII, since HTTP methods are ASCII tokens.
- Posture.SplitVersion: does not model overflow of a version part beyond 64 bits.
- Risk.Evaluate: does not model float64 rounding, nor the labels and details of factors.
- Audit.Store.Append: does not model what PostgreSQL does to the text of addresses and JSON detail between insert and read; an entry is read back as it was normalized.
- Pipeline.DecisionIsMonotone: does not model the names and messages of the shipped policies, which no decision reads.
- Lifecycle.Store.Evaluate: does not model how the inputs other than sensitivity and network familiarity are read from the database, nor the defaults a failed read of those leaves; they are parameters.
- Lifecycle.Store.OpenOrEscalate: does not model title and summary.
- `Signals.Validate`, `ParsePublicKey` and `Filter.Normalize`: single-branch checks.
- Heartbeats, notes, attached events, listings and counts of the stores: plain reads and writes without a property that spans operations.
- HTTP routing, handlers, problem documents, CORS, logging and request ids.
- OIDC and development tokens, configuration loading, migrations and SQL text.
- Collectors, posture probes, key storage and Windows service code: operating-system calls.
- The dashboard, the desktop shell and the simulator.
