# Verified models of the platform's coordination code

A Dafny model of the parts of the internal developer platform whose correctness depends on
interleavings, failures and hand-written text handling, with proofs of what they promise.
`dafny verify dfyconfig.toml` checks everything.

## The idempotency protocol of the API

`IdempotencyMiddleware` and `RedisStore` let many requests on many replicas share one Redis key per
client-supplied key. `IdempotencyProtocol` is a state machine over all keys and a clock. Each request
sends one Redis command at a time; Redis carries a sent command out later, or never, whether or not
the client is still there; the reply may be lost, the client may give up or crash between any two
steps, the handler may publish, return or panic, keys expire by the clock and may be evicted. A run
is any finite sequence of such steps by any number of requests.

*Windows.* A key's window ends when the record is removed by expiry or by eviction. Within a window
a key may be reserved, released and reserved again.

*Hypothesis (T)*, the predicate `Timely`: a completion or release script takes effect within `ttl` of
its owner's SETNX or not at all; no key is evicted while an owner could still use it; a sent command
takes effect at most once. The counting law, the frame facts and the answers a client gets need no
hypothesis. The exclusivity, refinement and replay theorems do, and the bound in (T) cannot be
relaxed: for every `ttl`, `IdempotencyLateScript` builds a run in which one release script takes
effect one millisecond late and two requests of one window both publish.

*Hypothesis on the handler*, a guard of the step `Return` and of `Panic`: a handler whose publish was
acknowledged answers 202 and does not panic afterwards. The exclusivity theorems rest on it, since a
status of 500 releases the key. `ResourceHandler.Provision`, the one handler that is wrapped, meets
it (`ServeRuns.ProvisionMayReturn`), and makes no call after the publish but those that write the
response.

*Replays and the deadline.* A refused request is answered from what the key holds when its GET is
carried out (`RefusedRequestsAnswer`). That is the completed record exactly until the deadline
(`HeldUntilDeadline`), and the bound cannot be relaxed either: `LateReaderMissesTheRecord` is a run
that keeps (T) in which a request is refused at the deadline, reads one millisecond later, and is
answered 500. Such a request never runs the handler (`RefusedNeverRuns`).

*Where code and comments disagree, the model follows the code.* The comment at
`redis_store.go:21-22` says a completion only overwrites a record "we still own"; the script tests
only that the key exists, there is no owner token in either script, and exclusivity therefore rests
on (T). The comment at lines 122-123 says a promoted record is left alone; the release script
searches the stored JSON text for the quoted word, so it also deletes a completed record when some
header name or value is that word or ends in a quote followed by it. `SearchIsExact` gives the exact
condition, for every record and every order of the header keys. Under (T) this does not matter: no
release ever meets a completed record (`StepRefinesPort`). Without it, it does. The CORS middleware
echoes the client's `Origin` before the idempotency middleware runs, and the default list of origins
is `*`, so a client that sends `Origin: IN_FLIGHT` has such a record stored
(`ProvisionRoute.StoredLooksInFlightIff` is exact), and
`IdempotencyLateScript.LateReleaseDeletesACompletedRecord` is a run in which one late release deletes
it and the same window publishes again.

The class `RedisStore.Store` runs the same commands one after another against a key space changed in
place, with a fault for each command; `Middleware.Edge.Serve` is the whole request path on top of it,
with the response recorder and net/http's writer as classes of their own. `ServeRuns` ties the two
views: what `Edge.Serve` does to its key is a run of the state machine.

## Name reservation and the task worker of the scaffolder

`ScaffolderSystem` is a state machine of any number of workers, deliveries and redeliveries: a plan
made from the message and a clock reading, the conditional put, the report to Step Functions, the
deletion; commands may be lost, delayed or carried out with the reply lost, and a worker may crash
between any two steps. A sweeper removes expired items. The log of effects on the shared services is
what the theorems speak about; every put in it is shown to be what its message asks for.
`TaskQueueWorker` has the same handling as class methods, and `WorkerRuns` shows that each call is a
run of the state machine.

Two facts of the code are kept as they are: an exception thrown while a failure is being reported is
not caught by the sibling catch blocks and stops the worker (`RedeliveredFailureStopsTheWorker` shows
a message that does so on redelivery, and exactly when); and the put's condition never looks at `ExpiresAt`, so a
name is free only once the sweeper has removed the item. The lease bound holds for the last
successful writer (`SweepRespectsTheLastWriter`). It does not hold for every accepted report: when
two deliveries of one request write out of clock order, the earlier clock can be stored last. The
exact condition, in the clock readings of the reporting and of the last writer, is `ReportHoldsIff`;
`WriteKeepsReportIff` states it before the write; and `SweepCanPrecedeAReport` builds, for every TTL and
every lag up to it, a run that sweeps the name that much before the expiry already reported.

## Sequential code

The hand-written list splitter and trimmer of the API's configuration against the provisioner's
broker parser; the application-name pattern with its own matching semantics; the trace-context
carriers of both services and both transports; the Kafka and SQS consumer loops with crashes,
restarts and lost commits.

## Files

| file | content |
|---|---|
| `Records.dfy`, `RecordCodecs.dfy`, `QuotedSearch.dfy`, `RecordJsonProofs.dfy` | the stored record, its JSON text and what can be read back from it, and when the release script's search hits |
| `IdempotencyPort.dfy` | the port's atomic operations and the Redis commands on one slot |
| `IdempotencyProtocol.dfy`, `IdempotencyInvariants.dfy`, `IdempotencyTheorems.dfy`, `IdempotencyLinearisation.dfy`, `IdempotencyCalls.dfy`, `IdempotencyLateScript.dfy` | the protocol, what every step keeps, the theorems over runs, each call as one atomic operation, the steps of a call, the runs that show the bounds are tight |
| `RedisStore.dfy`, `HttpRecorder.dfy`, `Middleware.dfy`, `ProvisionRoute.dfy`, `ServeRuns.dfy` | the adapter, the recorder, the middleware, the provisioning handler and the middleware chain, the wrapped route with its headers, the ties to the protocol |
| `NameReservations.dfy`, `ScaffolderTasks.dfy` | reservation, item, conditional put, lease; what a message asks for |
| `ScaffolderSystem.dfy`, `ScaffolderTheorems.dfy`, `ScaffolderEarlyReport.dfy`, `TaskQueueWorker.dfy`, `WorkerRuns.dfy` | the workers' protocol, its theorems, the early-sweep run, the worker's methods, their tie to the protocol |
| `Regex.dfy`, `ApplicationNames.dfy` | regular expressions with lookahead; names |
| `Strings.dfy`, `Config.dfy` | trimming, joining, splitting; the two list parsers |
| `TraceCarriers.dfy`, `Consumers.dfy` | carriers; consumer loops |
| `Wrappers.dfy` | `Option`, `Result` and the faults of a command |

## Model

| member | source | states |
|---|---|---|
| `IdempotencyTheorems.RunRefinesPort` | services/api/internal/domain/ports/outbound/idempotency_store.go:32-42 | Under (T), after every prefix of every run and for every key, the slot is the one that atomic Reserve, Complete and Release operations, applied at the moments their commands take effect, leave behind |
| `IdempotencyTheorems.StepRefinesPort` | services/api/internal/adapters/outbound/idempotency/redis_store.go:44-141 | Under (T) each Redis command changes the slot as one atomic port operation and returns its answer; a completion script always meets an IN_FLIGHT record and a release script always removes one |
| `IdempotencyPort.PortOperations` | services/api/internal/domain/ports/outbound/idempotency_store.go:34-42 | What Reserve, Complete and Release do to a free key, to a record in flight and to a completed one |
| `IdempotencyPort.ReservedHolds` | services/api/internal/adapters/outbound/idempotency/redis_store.go:48-53 | A new record is in flight and holds the hash and the two times, and nothing of a response |
| `IdempotencyPort.CompletedHolds` | services/api/internal/adapters/outbound/idempotency/redis_store.go:102-110 | A completed record has the hash and creation time of the one it replaces, and the status, headers, body and expiry of the completion |
| `IdempotencyProtocol.AnythingCanHappen` | services/api/internal/adapters/outbound/idempotency/redis_store.go:59-62 | At any time requests arrive, clients give up or crash, keys are evicted, and a sent command may be carried out although its client is gone; a failed Reserve is answered 500, a failed Complete or Release changes no answer |
| `IdempotencyLinearisation.CreatedIsAtomic` | services/api/internal/adapters/outbound/idempotency/redis_store.go:44-71 | Under (T), a request told created=true had its SETNX carried out during its call, on a key that was free in the atomic specification, and left there the record an atomic Reserve would |
| `IdempotencyLinearisation.RefusedIsAtomic` | services/api/internal/adapters/outbound/idempotency/redis_store.go:73-77 | Under (T), a request answered from an existing record was answered from the one the atomic specification held at the instant of its GET, where an atomic Reserve would have returned it with created=false |
| `IdempotencyLinearisation.AnswerTellsTheRecord` | services/api/internal/adapters/inbound/http/idempotency_middleware.go:118-149 | Under (T), a client answered without a handler run and without a store error got 422 if the record held at its GET had another hash, else 409 if that record was in flight, else its status, body and headers with the replay mark; so only completed records are replayed |
| `IdempotencyLinearisation.ConclusionIsAtomic` | services/api/internal/adapters/outbound/idempotency/redis_store.go:91-141 | Under (T), a Complete or Release that returned without an error changed the key, at one instant before, exactly as the atomic operation for the handler's outcome does |
| `IdempotencyTheorems.EmptyGetIsAnError` | services/api/internal/adapters/outbound/idempotency/redis_store.go:73-76 | A GET that finds nothing after a refused SETNX ends in an error and has no effect on the key |
| `IdempotencyTheorems.OneKeyMoves` | services/api/internal/adapters/outbound/idempotency/redis_store.go:16-17 | Requests with different keys never interfere; only the clock touches every key |
| `IdempotencyTheorems.OneWinnerPerWindow` | services/api/internal/adapters/inbound/http/idempotency_middleware.go:68-102 | Under (T), of all requests that reserved the key in one window, on any replicas and with crashes and store failures, at most one publishes or ends below 500 |
| `IdempotencyTheorems.OnePublishPerWindow` | services/api/internal/adapters/inbound/http/idempotency_middleware.go:93-102 | Under (T), two acknowledged publishes under one key belong to different windows |
| `IdempotencyTheorems.OneOwnerInTime` | services/api/internal/adapters/inbound/http/idempotency_middleware.go:83-102 | Under (T), at most one request is between created=true and the effect of its last script while that script can still be in time, and it owns the IN_FLIGHT record |
| `IdempotencyTheorems.InFlightIsAccountedFor` | services/api/internal/adapters/inbound/http/idempotency_middleware.go:83-102 | Under (T), an IN_FLIGHT record belongs to the request that created it, which can still finish it, had a failed store call, or crashed |
| `IdempotencyTheorems.SettledStays` | services/api/internal/adapters/inbound/http/idempotency_middleware.go:93-102 | In every run, a request that has reserved keeps its window, its publish and its outcome to the end |
| `IdempotencyTheorems.AnswersAreTheHandlers` | services/api/internal/adapters/inbound/http/idempotency_middleware.go:68-102 | In every run, a client whose request ran the handler is answered exactly what the handler came to; any other client gets an error or a replay |
| `IdempotencyInvariants.InvStep` | services/api/internal/adapters/inbound/http/idempotency_middleware.go:68-102 | Every step allowed by (T) keeps the ownership invariant: the record is its creator's, live requests of one window are one, and what an owner has read is what is stored |
| `IdempotencyInvariants.ScriptMeetsOwnRecord` | services/api/internal/adapters/outbound/idempotency/redis_store.go:80-90 | Under (T) a completion or release script meets the IN_FLIGHT record that its own request created, although neither script has an owner token |
| `IdempotencyInvariants.BaseStep` | services/api/internal/adapters/outbound/idempotency/redis_store.go:44-141 | With no hypothesis, every step keeps each request's stage, outstanding command and outcome consistent |
| `IdempotencyLateScript.OneMillisecondLateBreaksExclusion` | services/api/internal/adapters/outbound/idempotency/redis_store.go:21-23 | For every ttl there is a run with one script one millisecond later than (T) allows, and no eviction, in which two requests of one window both publish |
| `IdempotencyTheorems.ReservationsBalanceRemovals` | services/api/internal/adapters/outbound/idempotency/redis_store.go:59-71 | In every run, with expiry, eviction and late scripts, successful reservations of a key are its removals plus one if it is present: completion never revives a key |
| `IdempotencyTheorems.CompletedStays` | services/api/internal/adapters/outbound/idempotency/redis_store.go:122-134 | Under (T) a completed record stays exactly as it is until its deadline, unless evicted |
| `IdempotencyTheorems.CompletedHoldsTheResponse` | services/api/internal/adapters/inbound/http/idempotency_middleware.go:95-99 | Under (T) a completed record holds its creator's hash and the status, headers and body its handler returned, below 500 |
| `IdempotencyTheorems.CompletionStores` | services/api/internal/adapters/outbound/idempotency/redis_store.go:91-120 | Under (T) a completion script stores its own request's response and hash, for ttl from that moment |
| `IdempotencyTheorems.LaterRequestsReplay` | services/api/internal/adapters/inbound/http/idempotency_middleware.go:68-81 | Under (T), from a completion up to the deadline, a request whose SETNX comes after the completion has run no handler, and if it is answered by then, gets a store error or the replay of that record |
| `IdempotencyTheorems.LaterRequestsNeverRun` | services/api/internal/adapters/inbound/http/idempotency_middleware.go:78-81 | Under (T), a request whose SETNX comes between a completion and its deadline never runs the handler, however long it takes |
| `IdempotencyTheorems.RefusedNeverRuns` | services/api/internal/adapters/inbound/http/idempotency_middleware.go:78-81 | In every run, with no hypothesis, a request whose SETNX was refused never runs the handler, publishes nothing and writes nothing |
| `IdempotencyTheorems.HeldUntilDeadline` | services/api/internal/adapters/outbound/idempotency/redis_store.go:83-88 | Under (T), without eviction, the key holds a completed record if and only if the deadline has not passed; afterwards the record's window is over |
| `IdempotencyTheorems.RefusedRequestsAnswer` | services/api/internal/adapters/outbound/idempotency/redis_store.go:73-77 | Under (T), a refused request is answered, however late, from what the key holds when its GET is carried out, or 500 if that is nothing; that is the completed record if and only if the GET comes by its deadline |
| `IdempotencyLateScript.LateReaderMissesTheRecord` | services/api/internal/adapters/outbound/idempotency/redis_store.go:73-76 | For every ttl there is a run that keeps (T), without eviction, in which a request refused at the very deadline has its GET one millisecond later and is answered 500 |
| `IdempotencyTheorems.LateAnswersReplayToo` | services/api/internal/adapters/inbound/http/idempotency_middleware.go:78-81 | Under (T), a request that read the stored record before its deadline is answered from it or by an error, however late the answer is sent |
| `IdempotencyTheorems.RepliesForTtlAfterCompletion` | services/api/internal/adapters/inbound/http/idempotency_middleware.go:107-149 | Under (T), for ttl after a completion every request not answered before, whose store calls succeed, gets the stored status and body, or 422 for another hash |
| `IdempotencyTheorems.ReplayByBody` | services/api/internal/adapters/inbound/http/idempotency_middleware.go:118-149 | If digests are injective: the same body gets the first status, body and headers plus the replay mark, any other body gets 422 |
| `IdempotencyPort.ReplayAnswers` | services/api/internal/adapters/inbound/http/idempotency_middleware.go:118-149 | 422 for another hash whatever the state, 409 for a record in flight, otherwise the stored response (200 for a status of 0) with X-Idempotent-Replay |
| `IdempotencyPort.CachedBelow500` | services/api/internal/adapters/inbound/http/idempotency_middleware.go:151-158 | A response is worth storing if and only if its status is below 500 |
| `IdempotencyTheorems.HashNeverChanges` | services/api/internal/adapters/outbound/idempotency/redis_store.go:102-110 | Under (T), from reservation to removal the record keeps its hash and creation time |
| `RecordJsonProofs.SearchIsExact` | services/api/internal/adapters/outbound/idempotency/redis_store.go:124-134 | For every record and header order, the release script's search hits the JSON text if and only if the state is IN_FLIGHT or some header name or value is IN_FLIGHT or ends in a quote followed by it |
| `RecordJsonProofs.CompletedIsLeftAloneIff` | services/api/internal/adapters/outbound/idempotency/redis_store.go:122-123 | A completed record is left alone by a release if and only if none of its header names and values shows the word |
| `ProvisionRoute.StoredLooksInFlightIff` | services/api/internal/adapters/inbound/http/middleware.go:64-82 | For every answer of Provision, client and list of allowed origins: the release script takes the stored completed record for an in-flight one if and only if the request's own, allowed Origin is IN_FLIGHT or ends in a quote followed by it |
| `ProvisionRoute.OriginCanLookInFlight` | services/api/internal/config/config.go:105-105 | With the default list of origins, a client sending Origin: IN_FLIGHT has its accepted request stored as a record the release script's search hits |
| `IdempotencyLateScript.LateReleaseDeletesACompletedRecord` | services/api/internal/adapters/outbound/idempotency/redis_store.go:122-134 | For every ttl and every 202 response whose stored record looks in flight there is a run in which one release, one millisecond later than (T) allows, deletes that completed record and the same window publishes again |
| `AnswerRuns.LateReleaseDeletesAnAnswer` | services/api/internal/adapters/outbound/idempotency/redis_store.go:122-134 | The same with the very record that is stored for an accepted request to the wrapped route, for every client whose allowed Origin shows the word |
| `RecordJsonProofs.OwnStringsHideWord` | services/api/internal/adapters/outbound/idempotency/redis_store.go:34-42 | Hex hash, base64 body, time stamps and the state COMPLETED never show the word; the state IN_FLIGHT does |
| `RecordCodecs.MarshalLayout` | services/api/internal/adapters/outbound/idempotency/redis_store.go:34-42 | The stored text, member by member, for every record and header order; an empty status, header map or body is left out |
| `RecordCodecs.StringRoundTrip` | services/api/internal/adapters/outbound/idempotency/redis_store.go:38-38 | Header names and values can be read back from their escaped text (section 7 of RFC 8259) |
| `RecordCodecs.EscapesAre` | services/api/internal/adapters/outbound/idempotency/redis_store.go:54-54 | Which characters are escaped and how; all others are written as they stand |
| `RecordCodecs.HexRoundTrip` | services/api/internal/adapters/inbound/http/idempotency_middleware.go:65-66 | The hash can be read back from its hexadecimal text |
| `RecordCodecs.Base64RoundTrip` | services/api/internal/adapters/outbound/idempotency/redis_store.go:39-39 | The body can be read back from its base64 text (section 4 of RFC 4648) |
| `RecordCodecs.DigitsRoundTrip` | services/api/internal/adapters/outbound/idempotency/redis_store.go:37-37 | The status code can be read back from its digits |
| `RecordCodecs.StampFields` | services/api/internal/adapters/outbound/idempotency/redis_store.go:40-41 | A time's text has its fields at their places in 4 and 2 digits, then the fraction and Z |
| `RecordCodecs.FractionRoundTrip` | services/api/internal/adapters/outbound/idempotency/redis_store.go:40-41 | The fraction holds the nanoseconds without trailing zeros, and is absent for none |
| `RecordJsonProofs.EscapeCharIsCoding` | services/api/internal/adapters/outbound/idempotency/redis_store.go:54-54 | The JSON string escaping never leaves a bare quote, writes the word's characters as they stand and no other character as one of them |
| `QuotedSearch.RenderSearch` | services/api/internal/adapters/outbound/idempotency/redis_store.go:129-129 | For any such escaping and word, a rendered text contains the quoted word if and only if one of its quoted strings is the word or ends in a quote and the word |
| `RedisStore.Store.Reserve` | services/api/internal/adapters/outbound/idempotency/redis_store.go:44-78 | Run alone it is the port's Reserve and returns the record the key then holds; a failed SETNX reserves at most that, a failed GET changes nothing; other keys are untouched |
| `RedisStore.Store.Complete` | services/api/internal/adapters/outbound/idempotency/redis_store.go:91-120 | Run alone it stores the response under the hash and creation time it read, for ttl; a missing record is no error and is not created; on an IN_FLIGHT record it is the port's Complete |
| `RedisStore.Store.Release` | services/api/internal/adapters/outbound/idempotency/redis_store.go:136-141 | It removes a record in flight, leaves a completed one whose header strings do not show the word, and is then the port's Release |
| `RedisStore.Redis.SetNX` | services/api/internal/adapters/outbound/idempotency/redis_store.go:59-59 | SET NX PX on one key, with the command refused or its reply lost |
| `RedisStore.Redis.RunComplete` | services/api/internal/adapters/outbound/idempotency/redis_store.go:83-89 | The completion script: writes with a fresh TTL only if the key exists |
| `RedisStore.Redis.RunRelease` | services/api/internal/adapters/outbound/idempotency/redis_store.go:124-134 | The release script: deletes if the stored text contains the quoted word |
| `RedisStore.Redis.Get` | services/api/internal/adapters/outbound/idempotency/redis_store.go:143-150 | A GET returns the live record, or nothing |
| `HttpRecorder.CaptureIsExactIff` | services/api/internal/adapters/inbound/http/idempotency_middleware.go:160-188 | For every sequence of calls, the recorder captures the status and body the client was sent if and only if the first status is not informational and no body is written to a status without one |
| `HttpRecorder.FirstStatusIs` | services/api/internal/adapters/inbound/http/idempotency_middleware.go:173-188 | The status kept is the first one written, or 200 if a write comes first or there is none |
| `HttpRecorder.WrittenAppends` | services/api/internal/adapters/inbound/http/idempotency_middleware.go:182-188 | The body kept is what the writes append, in order |
| `HttpRecorder.StatusClasses` | services/api/internal/adapters/inbound/http/idempotency_middleware.go:173-188 | Which statuses carry no body and which do not end the header, as net/http has them |
| `HttpRecorder.RecorderIsTransparentIff` | services/api/internal/adapters/inbound/http/idempotency_middleware.go:173-188 | For every sequence of calls, the client sees what it would see without the recorder if and only if the first status is not informational or the first call that ends the header sends 200 (or there is none) |
| `HttpRecorder.EarlyHintsHideAnError` | services/api/internal/adapters/inbound/http/idempotency_middleware.go:173-180 | A handler that sends 103 and then 404: the client is told 404 without the recorder and 200 with it |
| `HttpRecorder.Recorder.WriteHeader` | services/api/internal/adapters/inbound/http/idempotency_middleware.go:173-180 | Only the first status counts, and it is forwarded once |
| `HttpRecorder.Recorder.Write` | services/api/internal/adapters/inbound/http/idempotency_middleware.go:182-188 | The first write implies 200; every byte is both kept and forwarded |
| `HttpRecorder.Recorder.CapturedHeaders` | services/api/internal/adapters/inbound/http/idempotency_middleware.go:190-212 | Whatever the iteration order: every header but the per-request ones, by its first value |
| `HttpRecorder.CapturedIs` | services/api/internal/adapters/inbound/http/idempotency_middleware.go:193-211 | A header is stored if and only if it has a value and is none of the six per-request ones, and then by its first value |
| `HttpRecorder.ReplayHeaders` | services/api/internal/adapters/inbound/http/idempotency_middleware.go:137-140 | A replay has the current request's per-request headers, the first response's other headers and the replay mark |
| `HttpRecorder.HeaderComesBackIff` | services/api/internal/adapters/inbound/http/idempotency_middleware.go:203-210 | A header of the first response comes back unchanged if and only if it had exactly one value |
| `Middleware.Edge.Serve` | services/api/internal/adapters/inbound/http/idempotency_middleware.go:33-105 | One request against the adapter, for every key, body, handler and fault: passed on, rejected with 400 or 500, answered from the record in the slot, or run once, with the exact slot and headers afterwards: stored as completed until now plus ttl if its first status is below 500, the key free again from 500 on or after a panic, left in flight if the store fails; a panic of the handler leaves the middleware; other keys are untouched |
| `ServeRuns.ServeAlone` | services/api/internal/adapters/inbound/http/idempotency_middleware.go:68-102 | Edge.Serve, on whatever state of its key, leaves the slot and gives the answer of a run of the protocol by one more request, for every handler and fault |
| `ServeRuns.ServeIsARun` | services/api/internal/adapters/inbound/http/idempotency_middleware.go:68-102 | For every handler, record and fault there are steps of one request that end in that slot and that answer |
| `Middleware.ReplayCached` | services/api/internal/adapters/inbound/http/idempotency_middleware.go:107-149 | 422 for another hash whatever the state; 409 with Retry-After 1 for a record in flight; otherwise the stored headers laid over the current ones with the mark, the stored status and body |
| `Middleware.ReplayedInWords` | services/api/internal/adapters/inbound/http/idempotency_middleware.go:137-148 | Header by header, what a replayed response carries |
| `Middleware.LayOver` | services/api/internal/adapters/inbound/http/idempotency_middleware.go:137-139 | The header loop gives the same map whatever order it visits the stored headers in |
| `Middleware.ReplaySendsTheSame` | services/api/internal/adapters/inbound/http/idempotency_middleware.go:95-99 | A replay sends the client the final status and body bytes the first response sent, whatever calls the handler made |
| `Middleware.RetryIsReplayed` | services/api/internal/adapters/inbound/http/idempotency_middleware.go:25-32 | A retry within the TTL of a cacheable first response runs no handler and gets the same final status, body and stored headers |
| `ResourceHandler.Provision` | services/api/internal/adapters/inbound/http/resource_handler.go:20-45 | 202 if and only if the publish was acknowledged, 500 if and only if it failed, 400 if and only if the body does not decode |
| `ServeRuns.ProvisionMayReturn` | services/api/internal/adapters/inbound/http/resource_handler.go:30-44 | Whatever the body and the publisher do, Provision returns only what the protocol's hypothesis on handlers allows, and 202 exactly when its publish was acknowledged |
| `MiddlewareChain.Chain` | services/api/internal/adapters/inbound/http/middleware.go:182-189 | The reverse loop nests the middlewares with the first outermost |
| `MiddlewareChain.WrappedIs` | services/api/internal/adapters/inbound/http/middleware.go:182-189 | No middleware leaves the handler as it is; each is applied to what the later ones make of it |
| `MiddlewareChain.WrappedAppend` | services/api/internal/adapters/inbound/http/middleware.go:182-189 | Chaining two lists is chaining the second inside the first |
| `ProvisionRoute.Serve` | services/api/internal/adapters/inbound/http/router.go:61-122 | Through the whole chain, whatever comes of a request - passed on, rejected, replayed or run, with any store fault - its response carries its own request id and time, and no stored record ever holds a per-request header |
| `ProvisionRoute.IdentityIs` | services/api/internal/adapters/inbound/http/middleware.go:24-40 | The id is the client's, else the gateway's trace id, else the generated one |
| `ProvisionRoute.StandardValues` | services/api/internal/adapters/inbound/http/middleware.go:39-56 | The eight headers every response starts with, and the values of the fixed ones |
| `ProvisionRoute.SetCorsHeaders` | services/api/internal/adapters/inbound/http/middleware.go:64-82 | The origin comes back as the client wrote it if and only if it is not empty and is listed or everything is allowed; other headers stay |
| `ProvisionRoute.ExposedIs` | services/api/internal/adapters/inbound/http/middleware.go:81-81 | The header names a browser may read |
| `ScaffolderTheorems.SuccessesAreSweptApart` | services/scaffolder/src/Scaffolder.Infrastructure/Persistence/DynamoDbNameReservationStore.cs:28-65 | In every run of workers, redeliveries, crashes and lost replies: if two requests both have success accepted for one name, a sweep of that name lies between the two reporting deliveries' own writes, whose names and request ids are those of their messages |
| `ScaffolderTheorems.WritersAreSweptApart` | services/scaffolder/src/Scaffolder.Infrastructure/Persistence/DynamoDbNameReservationStore.cs:33-36 | Two successful puts of one name by different requests have a sweep of it between them |
| `ScaffolderTheorems.PutsAreAsked` | services/scaffolder/src/Scaffolder.Application/ReserveName/ReserveNameUseCase.cs:25-32 | In every run, whatever a worker puts has the name and request id of the message it handles, and expires the TTL after its clock reading |
| `ScaffolderTheorems.CreationsBalanceSweeps` | services/scaffolder/src/Scaffolder.Infrastructure/Persistence/DynamoDbNameReservationStore.cs:42-53 | In every run, per name, creating puts are sweeps plus one if the name is held |
| `ScaffolderTheorems.DeletedWasReported` | services/scaffolder/src/Scaffolder.Worker/TaskQueueWorker.cs:24-29 | In every run, a deleted message had an outcome for its own token accepted by Step Functions before, from the same delivery |
| `ScaffolderTheorems.AcceptedIsTrue` | services/scaffolder/src/Scaffolder.Worker/TaskQueueWorker.cs:136-147 | In every run, an accepted success implies that this delivery of this message had put its own name and request id before, and its replay flag tells whether the name was held |
| `ScaffolderTheorems.AcceptedConflictIsTrue` | services/scaffolder/src/Scaffolder.Worker/TaskQueueWorker.cs:148-155 | In every run, an accepted NAME_ALREADY_RESERVED implies that at the instant of this message's put the name was held by the put of a message with another request id |
| `ScaffolderTheorems.AcceptedFailureIsPlanned` | services/scaffolder/src/Scaffolder.Worker/TaskQueueWorker.cs:156-163 | In every run, any other accepted failure is the one its message calls for at every clock reading |
| `ScaffolderSystem.AnythingCanHappen` | services/scaffolder/src/Scaffolder.Worker/TaskQueueWorker.cs:24-29 | At any time messages are delivered again, sent commands carried out although their worker is gone, workers stopped, and due items swept; an exception escapes exactly while a failure is reported |
| `ScaffolderTheorems.OneOutcomePerToken` | services/scaffolder/src/Scaffolder.Worker/TaskQueueWorker.cs:18-22 | In every run, at most one outcome is accepted per token |
| `ScaffolderTheorems.HolderStays` | services/scaffolder/src/Scaffolder.Infrastructure/Persistence/DynamoDbNameReservationStore.cs:33-36 | After a successful put the holder stays until a sweep, whatever others put |
| `ScaffolderTheorems.SweepRespectsTheLastWriter` | services/scaffolder/src/Scaffolder.Infrastructure/Persistence/DynamoDbNameReservationStore.cs:77-78 | In every run, whatever the workers' clocks: no sweep comes a second or more before the last successful writer's clock reading plus the TTL |
| `ScaffolderTheorems.ReportHoldsIff` | services/scaffolder/src/Scaffolder.Infrastructure/Persistence/DynamoDbNameReservationStore.cs:77-78 | In every reached state that holds the name: no later sweep comes a second or more before the expiry an accepted report named, if and only if the last writer's clock reading plus the TTL is not an earlier second, or that expiry is due |
| `ScaffolderTheorems.WriteKeepsReportIff` | services/scaffolder/src/Scaffolder.Application/ReserveName/ReserveNameUseCase.cs:25-32 | Decided before the write: a put that takes effect leaves an accepted report honoured if and only if the clock reading it was planned with satisfies that condition |
| `ScaffolderInvariants.InvStep` | services/scaffolder/src/Scaffolder.Worker/TaskQueueWorker.cs:107-204 | Every step keeps the invariant that ties table, accepted outcomes, attempts and messages to the log of effects |
| `NameReservations.DecodingIsExact` | services/scaffolder/src/Scaffolder.Infrastructure/Persistence/DynamoDbNameReservationStore.cs:48-65 | Created if and only if no item preceded the put, AlreadyHeld if and only if the same request held it, conflict if and only if another did; a conflict writes nothing |
| `NameReservations.Table.Reserve` | services/scaffolder/src/Scaffolder.Infrastructure/Persistence/DynamoDbNameReservationStore.cs:22-66 | ReserveAsync in place, with the command refused or its reply lost: only this name can change, and the outcome is the decoded answer |
| `NameReservations.OpensIff` | services/scaffolder/src/Scaffolder.Domain/Model/NameReservation.cs:51-65 | A reservation needs a request id that is not blank and a positive TTL, and expires the TTL after the clock reading |
| `NameReservations.ItemHoldsTheSecond` | services/scaffolder/src/Scaffolder.Infrastructure/Persistence/DynamoDbNameReservationStore.cs:73-78 | The item holds the request id and the epoch second of the expiry, rounded down |
| `NameReservations.SweepableIff` | services/scaffolder/src/Scaffolder.Infrastructure/Persistence/DynamoDbNameReservationStore.cs:77-78 | An item may be swept if and only if the second it holds has begun |
| `NameReservations.LeaseHolds` | services/scaffolder/src/Scaffolder.Domain/Model/NameReservation.cs:51-65 | Rounding the expiry down to a second lets a sweep come less than one second early |
| `ScaffolderEarlyReport.SweepCanPrecedeAReport` | services/scaffolder/src/Scaffolder.Application/ReserveName/ReserveNameUseCase.cs:25-32 | For every TTL and every lag up to it, a run in which a name is swept that lag before the expiry an accepted report named |
| `ScaffolderTasks.ClaimsAreAsked` | services/scaffolder/src/Scaffolder.Application/ReserveName/ReserveNameUseCase.cs:25-32 | A message is planned as a claim if and only if it is the known task with a valid name and a request id; the claim is for just those, from the clock read before the write, for the configured TTL |
| `ScaffolderTasks.ClaimsAreValid` | services/scaffolder/src/Scaffolder.Domain/ValueObjects/ApplicationName.cs:6-10 | A claimed name is a DNS label and parses to itself |
| `ScaffolderTasks.ReportsIgnoreTheClock` | services/scaffolder/src/Scaffolder.Worker/TaskDispatcher.cs:51-68 | A failure that needs no store is the same at every clock reading and never a name conflict |
| `ScaffolderTasks.MakePlan` | services/scaffolder/src/Scaffolder.Worker/TaskDispatcher.cs:47-68 | What a message asks for: left alone, also when it carries no input; a failure code to report; or a reservation to put |
| `ScaffolderTasks.PlansIff` | services/scaffolder/src/Scaffolder.Worker/TaskDispatcher.cs:47-68 | Which messages are left alone, reported as UNKNOWN_TASK, INVALID_TASK_PAYLOAD or INVALID_APPLICATION_NAME, or claimed: exactly, with the codes |
| `ScaffolderTasks.KnownTaskIff` | services/scaffolder/src/Scaffolder.Worker/TaskDispatcher.cs:35-40 | The known task is the eleven letters of ReserveName, each in either case |
| `ScaffolderTasks.BlankIff` | services/scaffolder/src/Scaffolder.Domain/Model/NameReservation.cs:57-57 | A request id is blank if it is missing or has nothing but white space |
| `ScaffolderTasks.ConflictCode` | services/scaffolder/src/Scaffolder.Worker/TaskQueueWorker.cs:150-154 | The code reported for a name held by another request |
| `TaskQueueWorker.Worker.HandleAsync` | services/scaffolder/src/Scaffolder.Worker/TaskQueueWorker.cs:107-177 | For every message and fault: the table, the accepted outcomes and the queue afterwards, and that an exception leaves the method exactly when a failure was to be reported and its report or its deletion failed |
| `TaskQueueWorker.VerdictsIff` | services/scaffolder/src/Scaffolder.Worker/TaskQueueWorker.cs:136-163 | Which verdict is sent: a failure if the message is planned so or its name is held by another request, a success if the put created or renewed the claim |
| `TaskQueueWorker.HandlingWithoutFaults` | services/scaffolder/src/Scaffolder.Worker/TaskQueueWorker.cs:136-155 | When the services answer: the verdict is accepted for the message's token, the item stored on success, the message gone, nothing thrown |
| `TaskQueueWorker.HandlingWithFaults` | services/scaffolder/src/Scaffolder.Worker/TaskQueueWorker.cs:148-201 | The message stays unless its outcome was accepted and the answer heard; an exception leaves exactly when a failure could not be reported or its message not deleted |
| `TaskQueueWorker.Worker.FailAsync` | services/scaffolder/src/Scaffolder.Worker/TaskQueueWorker.cs:179-201 | The failure is reported, then the message deleted; any error escapes |
| `TaskQueueWorker.Worker.ExecuteAsync` | services/scaffolder/src/Scaffolder.Worker/TaskQueueWorker.cs:47-105 | The loop handles the deliveries of its polls in order and ends exactly at the first one whose handling throws, at a receive that throws what it does not catch, or when cancelled; an exception leaves it in exactly the first two cases; the services are as those deliveries leave them |
| `TaskQueueWorker.EveryMessageIsHandled` | services/scaffolder/src/Scaffolder.Worker/TaskQueueWorker.cs:93-101 | Message j of poll i, when no poll before it ends the loop, is handled at its place, in the state the messages before it left, unless an earlier one threw |
| `TaskQueueWorker.DeliveriesEnd` | services/scaffolder/src/Scaffolder.Worker/TaskQueueWorker.cs:61-91 | The loop's messages are those of the batches before the first poll that ends it; failed receives neither end it nor bring any |
| `WorkerRuns.HandlingIsARun` | services/scaffolder/src/Scaffolder.Worker/TaskQueueWorker.cs:107-204 | From every state, HandleAsync changes the shared services as a run of the workers' protocol by one new attempt does, and throws exactly when that attempt ends with an escaping exception |
| `WorkerRuns.FollowingIsARun` | services/scaffolder/src/Scaffolder.Worker/TaskQueueWorker.cs:93-101 | So does the handling of any deliveries one after another |
| `TaskQueueWorker.CourseStopsFirst` | services/scaffolder/src/Scaffolder.Worker/TaskQueueWorker.cs:93-101 | Of the deliveries the loop has handled, the last threw if it stopped, and no other did |
| `TaskQueueWorker.CourseFollows` | services/scaffolder/src/Scaffolder.Worker/TaskQueueWorker.cs:93-101 | The loop leaves what its handled deliveries leave in order, and handles all of them unless it stopped |
| `TaskQueueWorker.RunKeeps` | services/scaffolder/src/Scaffolder.Worker/TaskQueueWorker.cs:24-29 | Over any deliveries and redeliveries: a message gone has an accepted outcome for its own token, accepted outcomes and holders never change |
| `TaskQueueWorker.RedeliveredFailureStopsTheWorker` | services/scaffolder/src/Scaffolder.Worker/TaskQueueWorker.cs:148-201 | Once any failure was accepted but its deletion lost, the message is never deleted, and each redelivery, among any others, throws if and only if the failure needs no store or the put is answered |
| `ApplicationNames.PatternAcceptsIff` | services/scaffolder/src/Scaffolder.Domain/ValueObjects/ApplicationName.cs:64-66 | For every string, the pattern matches if and only if it is a lowercase letter, then letters, digits and single hyphens, ending in a letter or digit, with length at least 2, or such a name and one final newline |
| `ApplicationNames.ParseAcceptsIff` | services/scaffolder/src/Scaffolder.Domain/ValueObjects/ApplicationName.cs:21-46 | Parse accepts a string if and only if its trimmed form has that shape and 3 to 40 characters, and returns the trimmed form |
| `ApplicationNames.ParsedNamesAreLabels` | services/scaffolder/src/Scaffolder.Domain/ValueObjects/ApplicationName.cs:6-10 | Every parsed name has 3 to 40 characters, is a label of section 2.3.1 of RFC 1035, and parses to itself |
| `ApplicationNames.LabelIs` | services/scaffolder/src/Scaffolder.Domain/ValueObjects/ApplicationName.cs:6-10 | What a label of section 2.3.1 of RFC 1035 is, in character ranges |
| `ApplicationNames.ParseName` | services/scaffolder/src/Scaffolder.Domain/ValueObjects/ApplicationName.cs:21-46 | Parse decided, with its error cases: a name is accepted if and only if, trimmed, it has 3 to 40 characters, begins with a to z, ends with a to z or 0 to 9, has only those and hyphens, and no two hyphens together |
| `Config.SplitString` | services/api/internal/config/config.go:222-239 | The index-resetting loop terminates and cuts at the leftmost, non-overlapping occurrences |
| `Config.SplitCuts` | services/api/internal/config/config.go:222-239 | The parts are exactly what lies between the leftmost, non-overlapping occurrences of the separator |
| `Config.JoinAfterSplit` | services/api/internal/config/config.go:222-239 | For every string and non-empty separator, joining the parts gives the string back |
| `Config.PartsAreFree` | services/api/internal/config/config.go:222-239 | No part contains the separator |
| `Config.SplitAfterJoinIff` | services/api/internal/config/config.go:222-239 | For every separator, splitting undoes joining if and only if, read from the left, each part is followed by the separator's first occurrence |
| `Config.SeparableIsUnique` | services/api/internal/config/config.go:222-239 | That property and the joined text determine the list of parts |
| `Config.OneCharSeparableIff` | services/api/internal/config/config.go:222-239 | For a one-character separator it holds exactly of the non-empty lists of parts without that character |
| `Config.OneCharSplitAfterJoinIff` | services/api/internal/config/config.go:222-239 | For a one-character separator, splitting undoes joining if and only if the list is not empty and no part has that character |
| `Config.TrimSpace` | services/api/internal/config/config.go:241-252 | The two index loops return the string trimmed of the four blanks |
| `Config.TrimSpaceIs` | services/api/internal/config/config.go:241-252 | Trimming leaves a slice with none of space, tab, LF and CR at its ends and only those around it |
| `Strings.TrimIsUnique` | services/api/internal/config/config.go:241-252 | Trimming returns the only slice with no blank at its ends and only blanks around it |
| `Strings.UnicodeSpaces` | services/provisioner/cmd/consumer/main.go:143-143 | The 25 white-space characters that the provisioner and .NET trim |
| `Config.SplitAndTrim` | services/api/internal/config/config.go:211-220 | Each part trimmed, the empty ones dropped, in order |
| `Config.KeepIs` | services/api/internal/config/config.go:211-220 | Element by element: every part that is not blank is kept, trimmed, in its order, and nothing else is |
| `Config.SplitAndTrimIsCanonical` | services/api/internal/config/config.go:211-252 | Every element is non-empty, trimmed and free of the separator, and re-joining and parsing again gives the same list |
| `Config.SplitBrokers` | services/provisioner/cmd/consumer/main.go:139-148 | The provisioner's parser of the same list |
| `Config.BrokerListsAgreeIff` | services/provisioner/cmd/consumer/main.go:139-148 | The two services read the same list if and only if no part has other Unicode white space left at its ends |
| `Config.BrokerListsAgree` | services/api/internal/config/config.go:203-220 | They agree on every input whose only white space is space, tab, CR and LF |
| `Config.BrokerListsCanDiffer` | services/api/internal/config/config.go:241-252 | They differ on a broker preceded by a vertical tab |
| `TraceCarriers.TransportsAgree` | services/provisioner/internal/consumer/propagation.go:32-66 | For every sequence of Set calls, Get on either transport returns the last value set for the key, or the empty string |
| `TraceCarriers.KeysAreTheKeysSet` | services/api/internal/adapters/outbound/kafka/resource_publisher.go:96-112 | Both transports hold exactly the keys set, and the header list holds each once |
| `TraceCarriers.KafkaCarrier.Set` | services/api/internal/adapters/outbound/kafka/resource_publisher.go:96-104 | The loop overwrites the first header with the key or appends one |
| `TraceCarriers.KafkaCarrier.Keys` | services/provisioner/internal/consumer/propagation.go:45-51 | The keys in header order |
| `TraceCarriers.SqsCarrier.Set` | services/api/internal/adapters/outbound/sqs/resource_publisher.go:83-88 | The map entry is replaced |
| `TraceCarriers.SqsCarrier.Keys` | services/provisioner/internal/consumer/propagation.go:69-75 | Every key once, in some order |
| `TraceCarriers.FindHeader` | services/provisioner/internal/consumer/propagation.go:36-43 | The value of the first header with the key, or the empty string |
| `TraceCarriers.CarryBoth` | services/provisioner/internal/consumer/propagation.go:18-29 | Written by the API over both transports, a key reads the same in the provisioner |
| `Consumers.RunKafka` | services/provisioner/internal/consumer/kafka.go:39-71 | Per session: exactly the records from the committed offset up to the position are received and processed, nothing below the committed offset is skipped, where it ends is determined by the turns, Processed counts the commits that succeeded and Failed the others, and Received is their sum, plus one if it crashed on a message |
| `Consumers.TurnIs` | services/provisioner/internal/consumer/kafka.go:39-71 | What one turn makes of the committed offset and the position, for every commit result and crash |
| `Consumers.RunSessions` | services/provisioner/internal/consumer/kafka.go:19-21 | Over any sessions with lost commits, crashes and restarts: exactly the records up to the furthest position reached are processed, and nothing below the committed offset was skipped |
| `Consumers.CommitsDecideProgress` | services/provisioner/internal/consumer/kafka.go:61-69 | With every commit lost a session commits nothing; with every commit made it commits all it has fetched |
| `Consumers.RunSQS` | services/provisioner/internal/consumer/sqs.go:18-69 | Received exceeds Processed plus Failed by the unfinished rest of the batch, which is none unless the process crashed in it; the messages processed, deleted and counted are those handled |
| `Consumers.RunBatch` | services/provisioner/internal/consumer/sqs.go:39-66 | At every point inside a batch Received exceeds Processed plus Failed by exactly the messages left |
| `Consumers.TallyMeans` | services/provisioner/internal/consumer/sqs.go:50-64 | Every message handled is counted once and processed, and exactly those whose deletion was carried out are deleted, also when its reply was lost |
| `Consumers.TallyCounts` | services/provisioner/internal/consumer/sqs.go:57-64 | Processed counts the deletions that succeeded, Failed those that did not or whose reply was lost |
| `Consumers.ReceivedIs` | services/provisioner/internal/consumer/sqs.go:39-41 | What each turn of the outer loop adds to the messages received |

## Left out

- IdempotencyTheorems.OneWinnerPerWindow: speaks of acknowledged publishes and of statuses the handler returned; a publish whose acknowledgement is lost is answered 500 and released, so the broker may hold two messages.
- IdempotencyTheorems.OneOwnerInTime: an owner that is past `ttl` may linger beside a newer one; (T) only says its scripts no longer take effect.
- IdempotencyTheorems.LaterRequestsReplay: covers the states up to the deadline; what a request still reading then is answered is RefusedRequestsAnswer.
- IdempotencyTheorems.RepliesForTtlAfterCompletion: covers answers given by the deadline; a later answer depends on when the GET was carried out, by RefusedRequestsAnswer and LateAnswersReplayToo.
- IdempotencyTheorems.ReplayByBody: SHA-256 is any injective digest; the theorems over runs speak of digests.
- RecordJsonProofs.SearchIsExact: strings are sequences of characters, so the replacement of invalid UTF-8 inside header strings is not modelled; a body that is empty but not nil is omitted, as one that is nil.
- HttpRecorder.CaptureIsExactIff: the writer accepts whole writes, and statuses that net/http refuses with a panic do not occur.
- HttpRecorder.HeaderComesBackIff: header names are in canonical form, and headers are not changed after WriteHeader.
- ResourceHandler.Provision: the bodies of responses and error envelopes are a parameter.
- Middleware.Edge.Serve: one request at a time, its two commands uninterrupted; interleavings are the subject of the protocol module. Whether a key is a UUID and whether the body can be read are parameters; response bodies of errors are not modelled.
- ScaffolderTheorems.ReportHoldsIff: looks from one state at the sweeps possible without a further write; each further write is the subject of WriteKeepsReportIff.
- TaskQueueWorker.Worker.ExecuteAsync: the sweeper and other workers do not act during the call; they do in the state machine. Resolving the queue URL and back-off delays are left out.
- ApplicationNames.ParseAcceptsIff: lengths count characters; a name with characters outside the basic plane is rejected either way, with possibly another reason. The pattern's match of a name and a final newline is kept, and shown to be unreachable after trimming.
- ScaffolderTasks.MakePlan: what JSON deserialisation makes of a message is a parameter, and the task name is compared ignoring case for ASCII letters only.
- Consumers.RunSessions: sessions of one partition follow one another; two consumers holding one partition across a rebalance are not modelled.
- Config.SplitString: Go strings are bytes and the model's are characters; on valid UTF-8 the cuts are the same.
- JSON decoding of a whole stored record is taken to give back the record that was encoded; RecordCodecs shows the layout of the text and that each value in it can be read back, not a parser of the whole.
- Redis, DynamoDB, SQS, Kafka and Step Functions clients: each command takes effect at most once; automatic retries by the client libraries are not modelled. The Redis key prefix is a fixed injection and left out.
- Visibility timeouts, receive counts and the dead-letter queue: any message may be delivered again at any time.
- Progress: nothing says that a retry eventually succeeds, that the worker survives every failure, or that a stuck IN_FLIGHT record goes before its TTL; the code does not provide it.
- Request validation, authentication, value objects, domain errors, logging, spans, metrics export, server wiring, and the logging, recovery, metrics and request-context middlewares and CORS preflights: easy or plumbing.
- Terraform, Kubernetes and Docker files.
