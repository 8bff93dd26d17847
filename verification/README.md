# Near-real-time hybrid search: a model with proofs

The search engine keeps two indexes, a keyword index in OpenSearch and a vector index
in Qdrant, in step with a PostgreSQL table. Changes arrive through a Kafka topic, are
spread over a pool of workers, written to both indexes, retried, dead-lettered when
hopeless, and acknowledged. Searches ask both indexes and fuse the two rankings.

This project models the two parts on which its promises rest and proves those promises
for all inputs, all runs and all interleavings.

**The at-least-once indexing protocol.** `README.md:167-247` of the repository states it
as "at-least-once delivery + idempotent indexing = safe processing".

- `offset_tracker.dfy`, `consumer.dfy`: the tracker that decides which offsets may be
  committed, and the fetch loop that feeds it.
- `worker_pool.dfy`: bounded queues, one worker each, routing by key, shutdown.
- `stores.dfy`, `events.dfy`, `service.dfy`: the contracts of the two store clients, and
  one event's store calls as small steps as well as the methods that make them.
- `idempotence.dfy`, `convergence.dfy`, `interleaving.dfy`: what repeats, crashes,
  reorderings and overlapping writers do to the two stores.
- `retry.dfy`, `errors.dfy`, `pipeline.dfy`: bounded retries, the classification of error
  trees, and what becomes of one message.
- `contents.dfy`, `verdicts.dfy`: what a row leaves in the stores column by column, which
  effect its version has, what a search then shows of it, and what each answer of a store
  means for trying again.
- `handler.dfy`: handling a message in one go is one of the sequences of single calls
  that the whole-system model interleaves.
- `protocol.dfy`: the whole system as a transition relation. Partitions, fetching,
  tracking, queues, workers, single store calls, letters, commits that reach the broker
  in any order, and crashes and restarts at any moment.
- `protocol_safety.dfy`, `protocol_consistency.dfy`, `protocol_accounts.dfy`,
  `protocol_progress.dfy`: nothing is lost, the stores end up right, every message is
  accounted for, and no run is ever stuck.

**Reciprocal Rank Fusion.** `rrf.dfy` proves the loops, maps and sorts against a
declarative ranking, `rrf_properties.dfy` says what that ranking guarantees, and
`hybrid.dfy` how the search service uses it. `identity.dfy` is about document ids and
event ids.

## How the model is built

- Code that updates fields or slices in place is a class with methods (`Tracker`,
  `Consumer`, `WorkerPool`, `KeywordIndex`, `VectorIndex`, `Service`, `Runner`,
  `Pipeline`) or a method with a loop (`Fuse`, `ClassifyChange`, `DocumentId`). Each is
  proved equal to a function of the old state, and the theorems are about these functions.
- Every external call takes a parameter that says how it went: `Succeeds`, or
  `Fails(landed, error)`, where a failed write may have taken effect all the same.
- A context is cancelled at some time or never, and a clock says when each moment of a run
  came. When a timer and the cancellation fall together, either may be seen first.
- Decoding a message, the embedder and the routing hash are arbitrary functions.
- Floating-point numbers are reals with an arbitrary addition and an arbitrary term
  function (`Arithmetic`), so whatever is proved of scores holds under any rounding. Only
  `AgreementWins` and what builds on it use exact arithmetic, and `EarlierNeverScoresLess`
  asks that addition and terms be monotone, as rounded ones are.
- The stores follow external versioning as the in-memory stand-in of
  `internal/indexing/cdc_pipeline_test.go:55-92` does: a document held without a positive
  version is replaced.

## Assumptions of the whole-system theorems

- `ProperLog`: a topic has one message per partition and offset, and offsets are not
  negative. `NoLostEvent` and `EveryRunCanCatchUp` need no more.
- `KeyedLog`: all events of a document carry the same non-empty key and so are in one
  partition; rows have positive versions that increase along the log
  (`README.md:200-208`). The same change may be published any number of times.
  `EndToEnd` and `CaughtUp` need it.
- One consumer at a time, and no write lands after the crash of the session that made it.
- A handler may retry or give up after any failed try, so the theorems hold for every
  retry policy and every classification of errors.

## Where code and documentation disagree

The model follows the code.

- `internal/indexing/cdc/event.go:219-223` says a reapplied event repeats exactly the
  version the keyword index holds. A conflict whose version cannot be read back counts as
  a duplicate too (`internal/search/opensearch/index.go:182-191`), so an overtaken row can
  be reported as reapplied and its old vector written: `RepeatOfOvertakenRow` and
  `UnreadableVersionRegresses` say when, `OlderVectorReturns` shows it.
- `README.md:191-192` says processing an event three times leaves what processing it once
  leaves. That is exact up to the version being readable: `ProcessTwice` and
  `RedeliveryConverges` give the condition, `TwiceIsNotOnce` and `RedeliveryIsNotOnce` an
  input at which it fails.
- `internal/indexing/cdc_pipeline.go:64-68` gives up on a joined failure only when every
  part is permanent. The composition with `ClassifyError`, which asks the first part that
  has an opinion, gives up on a delete earlier: `DeleteKind`, `DeleteGivenUpEarly`.
- `internal/indexing/worker.go:151-152` says a stopping pool must not start new messages.
  A worker already waiting in its second select may start one more, and only such a one:
  `LastStart` and `OneMoreStart`.
- `internal/indexing/worker.go:22-26` bounds memory by the workers and the queue size. Each
  worker has a queue of at least one, so that holds exactly when there are no more workers
  than the queue size: `HoldsNoMore`. `BoundedMemory` is the bound that always holds.
- `internal/indexing/cdc/event.go:129-130` says two different changes never share an event
  id. Three things are hidden by it. Table name and document id run together at a colon in
  either: `EventIdShared` says exactly when another change has the same id, `ColonCollides`
  shows one. Schema and table run together at a dot: `TablesRenderAlike`, `DotCollides`.
  Without an LSN an event is only placed by its millisecond: `PlacesCoincide`,
  `NoLsnCollides`.
- `internal/indexing/cdc/parser.go:129` says two key pairs never join into one id.
  Rendering trims text first, so keys that differ in surrounding space do:
  `PaddedKeysCollide`. `SameIdSameParts` says exactly when two rows share an id.

## Model

| member | source | states |
|---|---|---|
| OffsetTracker.Tracker.Add | internal/kafka/consumer.go:245-256 | the offset goes to the end of its own partition's queue, created when missing; no other partition changes |
| OffsetTracker.Tracker.MarkDone | internal/kafka/consumer.go:260-277 | the popping loop yields exactly the drained record and the last popped offset; an unknown partition gives nothing |
| OffsetTracker.PrefixMeaning | internal/kafka/consumer.go:258-259 | independent meaning of the finished prefix: all before it finished, the next one not |
| OffsetTracker.DrainTakesPrefix | internal/kafka/consumer.go:270-275 | draining stops at the first unfinished offset of the fetch order and hands out the one before it |
| OffsetTracker.MarkAdvances | internal/kafka/consumer.go:258-277 | marking one offset extends the prefix from n to m and returns its new last offset exactly when it grew |
| OffsetTracker.TrackerIsFinishedPrefix | internal/kafka/consumer.go:229-277 | after every well-used history the tracker holds exactly what lies past the finished prefix of the fetch order |
| OffsetTracker.ReturnIsPrefixEnd | internal/kafka/consumer.go:258-277 | each return is the new end of that prefix, exactly when the call made it longer |
| OffsetTracker.ReturnsIncrease | internal/kafka/consumer.go:258-277 | offsets returned for one partition strictly increase over a history |
| OffsetTracker.AllDone | internal/kafka/consumer.go:236-277 | once everything fetched is finished the last return was the greatest offset and the record is empty |
| OffsetTracker.PartitionsIndependent | internal/kafka/consumer.go:224-256 | a partition's record depends only on the calls that name it |
| OffsetTracker.DrainIsSafe | internal/kafka/consumer.go:270-275 | for any queue and done set, what is popped is a prefix held as done, and the last of it is returned |
| OffsetTracker.TakenWereFinished | internal/kafka/consumer.go:258-277 | in every history, disciplined or not, what left the queue is a prefix of the fetch order that was reported finished |
| OffsetTracker.KnownWhenFetched | internal/kafka/consumer.go:264-267 | in every history a partition is known exactly from its first fetch on, and a mark before that changes and returns nothing |
| OffsetTracker.StaleMarkIsCommitted | internal/kafka/consumer.go:236-239 | the done set is not a multiset: a mark made before its fetch is committed later |
| Consumers.Consumer.Track | internal/kafka/consumer.go:177-178 | tracking a message adds exactly its offset |
| Consumers.Consumer.Deliver | internal/kafka/consumer.go:156 | a message is tracked whether or not the workers then accept it |
| Consumers.Consumer.Done | internal/kafka/consumer.go:185-199 | a commit is asked for exactly when marking finished a longer prefix |
| Consumers.Consumer.Run | internal/kafka/consumer.go:131-163 | the loop ends where and how its specification says, with everything fetched tracked in fetch order and everything accepted submitted |
| Consumers.EndsAt | internal/kafka/consumer.go:132-151 | the loop ends at the first turn that stops it or is the tenth failed fetch in a row, and with which error |
| Consumers.GoesOn | internal/kafka/consumer.go:123-163 | without such a turn it goes on until it is cancelled: a fetched message starts the count again |
| Consumers.TenthFailureEnds | internal/kafka/consumer.go:18-22 | ten failed fetches in a row end the loop with an error, nine do not |
| Consumers.FetchedAreInFlight | internal/kafka/consumer.go:177-178 | what was fetched is in flight, partition by partition in fetch order |
| Consumers.OnlyLastRefused | internal/kafka/consumer.go:156-161 | everything fetched was accepted except perhaps the very last message |
| WorkerPools.WorkerPool.New | internal/indexing/worker.go:78-94 | no pool for settings that are not positive; otherwise empty queues that share the queue size with at least one place each |
| WorkerPools.WorkerPool.Submit | internal/indexing/worker.go:108-117 | a message is queued at its route or the pool is unchanged |
| WorkerPools.WorkerPool.CheckQuit | internal/indexing/worker.go:153-157 | the first select: return when quit is closed |
| WorkerPools.WorkerPool.Receive | internal/indexing/worker.go:159-164 | the second select: take the head of the queue or see quit |
| WorkerPools.WorkerPool.HandlerReturned | internal/indexing/worker.go:168-183 | a worker goes back to its loop when its handler returns |
| WorkerPools.WorkerPool.CloseQuit | internal/indexing/worker.go:123-124 | quit is closed, and nothing else changes |
| WorkerPools.WorkerPool.CurrentStats | internal/indexing/worker.go:65-72 | the four numbers are the workers, the handlers running, the messages queued and the total capacity |
| WorkerPools.NextKeeps | internal/indexing/worker.go:108-192 | every step keeps: submitted = finished + in hand + queued, per queue and in order, and every message at its route |
| WorkerPools.KeylessGoRound | internal/indexing/worker.go:185-188 | messages without a key go to the workers in turn, by offset |
| WorkerPools.EvenShare | internal/indexing/worker.go:74-86 | a queue's capacity is its even share of the queue size rounded down, and at least one |
| WorkerPools.PerKeySerialisation | internal/indexing/worker.go:28-30 | in every run the messages of a key belong to one worker, start in submit order and never overlap |
| WorkerPools.LastStart | internal/indexing/worker.go:148-166 | after quit closes a worker starts at most one more message, and only one that was already waiting |
| WorkerPools.OneMoreStart | internal/indexing/worker.go:151-164 | after quit closes some continuation starts one more message of a worker exactly when it was waiting and a message is in its queue or can still get there |
| WorkerPools.EarlyQuitStartsNothing | internal/indexing/worker.go:148-157 | a pool told to quit before it started anything never starts anything |
| WorkerPools.WorkersReturn | internal/indexing/worker.go:148-166 | after quit closes a worker that has not returned can always take a step, if only its handler returns, and each of its steps brings it closer to returning |
| WorkerPools.CapacityBound | internal/indexing/worker.go:74-86 | the queues together hold no more than the larger of queue size and workers |
| WorkerPools.BoundedMemory | internal/indexing/worker.go:78-117 | in every run, whatever arrives, queued plus handled messages stay under that bound plus one per worker |
| WorkerPools.HoldsNoMore | internal/indexing/worker.go:22-26 | the pool keeps to workers plus queue size messages in every run exactly when there are no more workers than the queue size |
| WorkerPools.Conservation | internal/indexing/worker.go:108-183 | no message is duplicated or dropped: submitted = queued + in handlers + those that ended in each of the five outcomes |
| Errors.FlattenErrors | internal/indexing/cdc_pipeline.go:106-116 | the recursion with a growing slice returns the unjoined failures in order |
| Errors.ClassifyChange | internal/indexing/cdc_pipeline.go:69-84 | the early-exit loop decides as the specification does |
| Errors.ClassifiedMeaning | internal/indexing/cdc_pipeline.go:64-84 | an error comes out permanent exactly when it was, is malformed, or every part is hopeless for its own store; nil stays nil and the error stays reachable |
| Errors.JoinIsHopeless | internal/indexing/cdc_pipeline.go:67-84 | a join is hopeless exactly when each of its members is, or one is already permanent or malformed |
| Errors.FailuresInOrder | internal/indexing/cdc_pipeline.go:106-116 | joins are taken apart from left to right, nothing else is |
| Verdicts.StoreRules | internal/indexing/indexer.go:138-174 | for every error tree: permanent exactly when the first store named in it has a value it never accepts in the tree or a refusal as the first of its own request errors |
| Verdicts.KeywordWriteVerdict | internal/search/opensearch/client.go:84-89 | a keyword write answered with status 0, 408, 429 or 500 and above is tried again, every other status is final |
| Verdicts.LongIdVerdict | internal/search/opensearch/index.go:244-252 | an id the keyword index cannot hold fails for good and touches nothing |
| Verdicts.VectorWriteVerdict | internal/search/qdrant/client.go:85-93 | the seven codes after which a vector write is tried again; every other is final |
| Verdicts.InvalidVectorVerdict | internal/indexing/indexer.go:167-174 | a vector the client refuses is final |
| Verdicts.EmbeddingVerdict | internal/indexing/indexer.go:138-152 | which failures of the embedder are final, which are tried again and which count as unknown |
| Errors.FoundIffPresent | internal/indexing/pipeline.go:285-291 | depth-first search finds an error exactly when the tree has one, and finds the first |
| Errors.KindOf | internal/indexing/pipeline.go:278-293 | the two decisions together give up exactly on what is hopeless and on what first says that it is not temporary |
| Verdicts.KindMeaning | internal/indexing/pipeline.go:278-293 | the kind of every error: final, retryable or unknown |
| Errors.DeleteKind | internal/indexing/pipeline.go:278-293 | for every way one store or both can fail a delete: given up exactly when hopeless or when the keyword index answered with a refusal, which agrees with the classifier exactly when it did not or the vector half is hopeless too |
| Errors.DeleteGivenUpEarly | internal/indexing/cdc_pipeline.go:67-68 | a delete is given up although its vector half could still be retried |
| ChangeService.DeleteReports | internal/indexing/cdc/service.go:296-315 | a delete reports exactly the failures of its two calls, in that order, or its effect |
| Stores.KeywordIndex.IndexDocument | internal/search/opensearch/index.go:140-196 | a write is applied, refused as a duplicate or as stale, or fails with or without effect, and what the index holds in each case |
| Stores.KeywordIndex.DocumentVersion | internal/search/opensearch/index.go:204-222 | the version held, nothing, or the read's error |
| Stores.KeywordIndex.DeleteDocument | internal/search/opensearch/index.go:228-242 | removing what is not there succeeds |
| Stores.VectorIndex.Upsert | internal/search/qdrant/point.go:46-67 | the point replaces the one held under its id |
| Stores.VectorIndex.Delete | internal/search/qdrant/point.go:71-84 | removing what is not there succeeds |
| Stores.TrimMeaning | internal/indexing/cdc/document.go:111-121 | trimming leaves the slice between the white space at both ends, and nothing else is that |
| Stores.SpaceCodes | internal/indexing/cdc/parser.go:142-145 | the code points that are white space |
| Stores.ValidIds | internal/search/opensearch/index.go:244-252 | an id is refused exactly when it is all white space or over 512 bytes |
| Stores.IdLimits | internal/search/opensearch/index.go:248-249 | how many characters of one, two, three and four bytes an id may have |
| ChangeService.Service.Process | internal/indexing/cdc/service.go:206-237 | the method leaves the stores, effect and error that the single-call steps lead to |
| ChangeService.Service.Upsert | internal/indexing/cdc/service.go:239-292 | keyword write, conflict lookup, embedding, vector write, stopping at the first failure or a newer row |
| ChangeService.Service.Delete | internal/indexing/cdc/service.go:296-315 | both deletes are always attempted and their failures joined |
| ChangeService.StepMakesProgress | internal/indexing/cdc/service.go:239-315 | every store call brings an event closer to its end |
| ChangeService.AttemptReturns | internal/indexing/cdc/service.go:223-315 | an attempt ends after at most four store calls |
| Contents.EnterMeaning | internal/indexing/cdc/service.go:223-250 | exactly which events get as far as the stores |
| Contents.ChecksInOrder | internal/indexing/cdc/service.go:223-231 | a bad event is reported before a cancelled context |
| Contents.MalformedTouchesNothing | internal/indexing/cdc/service.go:247-250 | every other event fails for good as malformed and touches nothing |
| Contents.IndexedRow | internal/indexing/cdc/document.go:54-121 | an indexed event left its row in both stores column by column, and the embedding of its text written out from the trimmed columns |
| Versions.EffectByVersion | internal/indexing/cdc/event.go:214-230 | which effect a row has by its version and the one held |
| Versions.WriteByVersion | internal/search/opensearch/index.go:133-168 | a keyword write is refused exactly when a version at least as high is held |
| Versions.LookupDecides | internal/search/opensearch/index.go:182-196 | what reading the version back decides, a document gone meanwhile included |
| Idempotence.InterruptedStores | internal/indexing/cdc/service.go:239-315 | all the partial states an attempt that stops anywhere can leave |
| Idempotence.EffectIsTrue | internal/indexing/cdc/service.go:239-315 | an attempt touches one document only, and the effect it reports is true of the stores it leaves |
| Idempotence.RepeatOfOvertakenRow | internal/search/opensearch/index.go:182-191 | a completed row that the keyword index had moved past is reported as reapplied exactly when its lookup failed, and leaves the vector index alone exactly when it succeeded or that very vector was there |
| Idempotence.OvertakenSends | internal/indexing/cdc/service.go:252-287 | which calls of an attempt at an overtaken row change the vector index: all up to the vector write get through but the version read |
| Idempotence.CompletionDependsOnCalls | internal/indexing/cdc/service.go:223-315 | an attempt completes exactly when the calls it depends on succeed |
| Idempotence.SettledAfterPartial | internal/indexing/cdc/service.go:58-118 | whatever partial state an attempt left, completing the event settles the stores as from the start |
| Idempotence.CrashThenRedeliver | internal/indexing/cdc/service.go:58-118 | stopping anywhere and then processing the event whole leaves the stores of one execution |
| Idempotence.RedeliveryConverges | internal/indexing/cdc/service.go:58-118 | an attempt stopped anywhere and then a completed one leave what completing once would, except exactly when the row was overtaken, only the second could read that, and the calls of the first had sent its vector |
| Idempotence.RedeliveryIsNotOnce | internal/search/opensearch/index.go:178-186 | a row, stores and calls at which a redelivery completes and does not converge |
| Idempotence.ProcessTwice | internal/indexing/cdc/service.go:206-237 | completing an event twice leaves what completing it once left, unless the row was overtaken and only the first execution could see that |
| Idempotence.TwiceIsNotOnce | internal/search/opensearch/index.go:178-186 | a row, stores and calls at which the second time undoes the first |
| Convergence.NeverPast | internal/indexing/cdc/service.go:252-262 | no delivery of rows up to the newest puts the keyword index past it |
| Convergence.StaysNewest | internal/indexing/cdc/service.go:239-292 | once both stores hold the newest row, nothing older that is delivered and can read versions changes them |
| Convergence.NewestWins | internal/indexing/cdc/service.go:239-292 | rows of a document in any order, any number of times, stopped anywhere: both stores hold the newest once it completed |
| Convergence.UnreadableVersionRegresses | internal/search/opensearch/index.go:178-191 | after an overtaken row completes, both stores still hold the newest row exactly when the row's conflict lookup succeeded |
| Convergence.OlderVectorReturns | internal/search/opensearch/index.go:178-186 | a concrete delivery that brings an older vector back |
| Interleaving.StepKeeps | internal/indexing/cdc/service.go:252-287 | one store call of one of many writers keeps the vector index behind the keyword index |
| Interleaving.KeywordIndexNeverBehind | internal/indexing/cdc/service.go:252-287 | for any number of writers interleaved call by call, keyword versions never decrease and the vector index is never ahead |
| Interleaving.VectorIndexCanRegress | internal/indexing/cdc/service.go:264-287 | for any two rows some interleaving without failures leaves the older vector behind the newer document |
| Retry.Runner.Do | internal/retry/retry.go:168-193 | the loop's result, effects and announced retries are those of the run's specification |
| Retry.Runner.Wait | internal/retry/retry.go:195-211 | no error means the whole delay passed with the context live until then; an error is the context's, and the wait ended the moment it was cancelled, no later than the delay |
| Retry.RunMeaning | internal/retry/retry.go:168-193 | a run ends with the first attempt after which it does not go on -- it succeeded, the context was cancelled, the kind was not retryable or attempts ran out -- with that attempt's effects, error and kind; one retry is announced per wait begun, with its backoff |
| Retry.RunLength | internal/retry/retry.go:168-193 | a run has b attempts exactly when each before b failed with a kind other than non-retryable while the context was live through check and wait, and b did not |
| Retry.UsesEveryAttempt | internal/retry/retry.go:180-183 | a run that ends on its own error of an unknown or retryable kind used every attempt |
| Retry.ValidPolicies | internal/retry/retry.go:71-85 | exactly which policies are accepted, and what is reported of the others |
| Retry.RunWaits | internal/retry/retry.go:87-102 | total waiting is at most one cap per allowed retry |
| Retry.BackoffShape | internal/retry/retry.go:87-102 | waits lie between the initial wait and the cap, never decrease, and stay at the cap |
| Retry.BackoffBelowCap | internal/retry/retry.go:92-102 | below the cap a wait is the geometric delay rounded down |
| Retry.BackoffGeometric | internal/retry/retry.go:92-102 | the waits are the geometric sequence from the initial wait, rounded down and capped |
| Retry.EndsWithLast | internal/retry/retry.go:168-193 | a run leaves what its last attempt left and succeeds exactly when that did |
| Retry.RunPreserves | internal/retry/retry.go:168-193 | what every attempt keeps a run keeps, and what a successful attempt makes true holds after a successful run |
| Pipelines.Pipeline.Process | internal/indexing/pipeline.go:152-217 | the stores, letters, error and single report of handling one message |
| Pipelines.Pipeline.DeadLetter | internal/indexing/pipeline.go:219-253 | a letter is stored, or the error says why not, and one report is made |
| Pipelines.OneOutcome | internal/indexing/pipeline.go:84-101 | one outcome per message, and nil is returned exactly for indexed, skipped and dead-lettered; a letter holds the message unchanged |
| Pipelines.IndexedExactly | internal/indexing/pipeline.go:171-200 | a message is indexed with b attempts exactly when try b completes on the stores the tries before it left, with the context live, and each of those failed in a way that may pass with the context live through its check and wait |
| Pipelines.IndexedAtOnce | internal/indexing/pipeline.go:171-200 | with a live context and calls that succeed a message is indexed at the first try, with that try's stores and effect and no letter |
| Pipelines.HandledComesTo | internal/indexing/pipeline.go:171-253 | exactly when an event is indexed, cancelled, dead-lettered or failed, and that its letter carries the cause, kind and number of the last try |
| Pipelines.UndecodableHandled | internal/indexing/pipeline.go:156-168 | a message that does not decode is never tried: a tombstone is skipped, anything else is dead-lettered as non-retryable after no attempt |
| Pipelines.TryMeaning | internal/indexing/cdc_pipeline.go:59-62 | one try is one attempt of the service, its error classified; it succeeds exactly when the attempt completes while the context is live |
| Pipelines.ReportedEffectHolds | internal/indexing/pipeline.go:152-217 | through all retries no other document is touched, and the reported effect is true of the stores |
| Handlers.HandledIsMoves | internal/indexing/pipeline.go:152-253 | handling a message in one go is one of the sequences of single moves that the system model interleaves |
| Handlers.RunsAreMoves | internal/retry/retry.go:168-193 | so is every run of retries |
| ProtocolSafety.MarkSafe | internal/kafka/consumer.go:185-199 | marking an acknowledged message hands out only the end of a prefix of acknowledged messages |
| ProtocolSafety.NextSafe | internal/kafka/consumer.go:131-201 | every step of the system keeps the safety invariant, commits in any order and crashes included |
| ProtocolSafety.RunSafe | internal/kafka/consumer.go:44-51 | the invariant holds in every reachable state of any number of sessions |
| ProtocolSafety.NoLostEvent | internal/kafka/consumer.go:47-51 | every message at or below the committed offset was indexed, carries nothing to index, or is in the dead-letter topic unchanged |
| ProtocolConsistency.StepReached | internal/indexing/cdc/service.go:239-315 | a store call of a document's last event brings both stores closer to that event, as long as nothing newer is held |
| ProtocolConsistency.AloneWithDocument | internal/indexing/worker.go:28-30 | while one worker has a message no other has a message of the same document |
| ProtocolConsistency.OneWorkerPerDocument | internal/indexing/worker.go:28-30 | in every run two workers never hold messages of one document |
| ProtocolConsistency.NextCoherent | internal/indexing/worker.go:148-192 | every step of the system keeps the consistency invariant |
| ProtocolConsistency.EndToEnd | internal/indexing/cdc/service.go:58-118 | in every run a document whose last event is committed has it dead-lettered, or both stores hold exactly its row, or nothing after a delete |
| ProtocolConsistency.CaughtUp | internal/indexing/cdc/service.go:58-118 | with the log committed and no letters the two stores hold exactly the final rows of the log and the same documents |
| CommittedRows.CommittedRowShown | internal/search/hybrid/service.go:252-254 | in every run a committed last row that was not dead-lettered is held by both stores column by column, and a keyword search that finds it shows its title, content and address |
| ProtocolAccounts.RunSlipsNone | internal/kafka/consumer.go:123-129 | in every run, while a session fetches, all it has fetched but at most one message has been handed to the pool |
| ProtocolAccounts.EveryMessageAccounted | internal/indexing/pipeline.go:84-101 | in every run of the system, what a session submitted is queued, with a worker, or ended in one of the five outcomes |
| ProtocolProgress.HandlesNext | internal/indexing/worker.go:148-183 | an idle session can fetch, handle and commit the next message of any partition |
| ProtocolProgress.EveryRunCanCatchUp | internal/kafka/consumer.go:44-51 | whatever happened before, some continuation commits the whole log |
| Rrf.LessIsOrder | internal/search/rrf/rrf.go:116-121 | comparing ids is a strict total order |
| Rrf.LessMeaning | internal/search/rrf/rrf.go:116-121 | it is the order of texts: the first difference decides, and a prefix comes first |
| Rrf.BeforeIsOrder | internal/search/rrf/rrf.go:116-121 | the comparison given to the sort is a strict order, total on distinct ids |
| Rrf.RankingUnique | internal/search/rrf/rrf.go:75-78 | the declarative ranking of given lists is unique |
| Rrf.CountList | internal/search/rrf/rrf.go:93-108 | one list's loop tallies first positions and payloads, skipping empty and repeated ids |
| Rrf.ScoreAll | internal/search/rrf/rrf.go:111-114 | whatever order the map is visited in, each document gets its score once |
| Rrf.SortResults | internal/search/rrf/rrf.go:116-121 | the results in strict order, none lost or added |
| Rrf.ScoreRanks | internal/search/rrf/rrf.go:139-146 | the score is the sum of the terms in ascending order of rank |
| Rrf.Fuse | internal/search/rrf/rrf.go:78-132 | for every map order and every rounding the result is the top of the unique ranking, or the error for a bad k or limit |
| RrfProperties.PayloadIsFirstKept | internal/search/rrf/rrf.go:103-106 | the payload is the first non-nil one among a document's first entries |
| RrfProperties.RankIsFirst | internal/search/rrf/rrf.go:93-102 | a document's rank in a list is its first position |
| RrfProperties.ScoreOfMultiset | internal/search/rrf/rrf.go:134-146 | for any addition whatever, a score depends only on the multiset of ranks |
| RrfProperties.UnsortedSumDependsOnOrder | internal/search/rrf/rrf.go:136-138 | without the sort it would not |
| RrfProperties.ListOrderIrrelevant | internal/search/rrf/rrf.go:134-138 | permuting the input lists changes no document, score or place |
| RrfProperties.NeighboursInOrder | internal/search/rrf/rrf.go:116-126 | in the result each entry scores more than the next, or as much and has the smaller id as text |
| RrfProperties.TopIsBest | internal/search/rrf/rrf.go:116-126 | a smaller limit gives a prefix of a larger one's result, of the right length, and nothing left out ranks above what is kept |
| RrfProperties.EarlierNeverScoresLess | internal/search/rrf/rrf.go:139-146 | moving up in a list never lowers a score |
| RrfProperties.AgreementWins | internal/search/rrf/rrf.go:139-146 | with two lists of at most k+1, every document in both ranks above every document in one |
| RrfProperties.AgreementIsTight | internal/search/rrf/rrf.go:139-146 | two votes from place k+2 are worth exactly one from the first |
| HybridSearch.FuseHits | internal/search/hybrid/service.go:255-278 | the results are the fused ranking of keyword list, then vector list, shown field by field |
| HybridSearch.ValidConfigs | internal/search/hybrid/service.go:108-123 | exactly which settings are accepted, and what is reported of the others |
| HybridSearch.ValidRequests | internal/search/hybrid/service.go:162-184 | exactly which requests are accepted and with which text and limit, and what is reported of the others |
| HybridSearch.AcceptedLimit | internal/search/hybrid/service.go:108-184 | an accepted request under accepted settings never fails in fusion, and asks for no more than the retrievers return |
| HybridSearch.AnswerSize | internal/search/hybrid/service.go:255-278 | an answer has as many results as were asked for, or as there are documents |
| HybridSearch.KeywordDocumentShown | internal/search/hybrid/service.go:252-254 | a document the keyword search found shows the full document, whatever the vector search says of it |
| HybridSearch.VectorDocumentShown | internal/search/hybrid/service.go:281-292 | a document only the vector search found shows the title and address it was indexed with, and no body |
| HybridSearch.VectorFieldsShown | internal/search/hybrid/service.go:286-290 | of any payload only a title and an address that are texts are shown |
| HybridSearch.AgreementExactly | internal/search/hybrid/service.go:108-123 | for hits as the retrievers return them, each document once under its id, agreement comes first if and only if the candidate limit is at most k+1 |
| HybridSearch.DefaultsAgree | internal/config/config.go:273-279 | the default settings satisfy that; some accepted settings do not, at such hits |
| Identity.DocumentId | internal/indexing/cdc/parser.go:110-137 | the loop returns the joined parts or the first column's problem |
| Identity.PartMeaning | internal/indexing/cdc/parser.go:142-153 | what each kind of value contributes to an id, exactly when a column is accepted and what is reported otherwise |
| Identity.DocumentIdMeaning | internal/indexing/cdc/parser.go:110-137 | an id is the rendered key columns with a bar between each two, the column id by default |
| Identity.NumberKeysShare | internal/indexing/cdc/parser.go:142-148 | rows with number keys share an id exactly when the numbers are written alike |
| Identity.SplitJoin | internal/indexing/cdc/parser.go:129-136 | splitting a composite id gives back its parts |
| Identity.CompositeIdDecodes | internal/indexing/cdc/parser.go:110-137 | an id is accepted exactly when every column renders, and decodes to the rendered columns |
| Identity.SameIdSameParts | internal/indexing/cdc/parser.go:105-137 | two rows share an id exactly when all their key columns render alike |
| Identity.PaddedKeysCollide | internal/indexing/cdc/parser.go:142-145 | keys that differ only in surrounding space share an id |
| Identity.RowKeepsDocument | internal/indexing/cdc/parser.go:61-86 | every event of a row with the same key, its delete included, names the same document |
| Identity.EnvelopeMeaning | internal/indexing/cdc/parser.go:61-86 | exactly which envelopes are accepted, as which operation and about which row |
| Identity.FormatInjective | internal/indexing/cdc/event.go:154-163 | different numbers are written differently |
| Identity.DigitsMeaning | internal/indexing/cdc/event.go:154-163 | numbers are written in decimal without leading zeros |
| Identity.EventIdText | internal/indexing/cdc/event.go:139-151 | the event id of an ordinary event, written out |
| Identity.EventIdWithoutLsn | internal/indexing/cdc/event.go:154-174 | and of one without a log position, a schema or a table |
| Identity.EventIdParts | internal/indexing/cdc/event.go:149-163 | two event ids are equal exactly when what stands before the operation, the operation and the log position are, for any names and ids |
| Identity.EventIdIdentifies | internal/indexing/cdc/event.go:129-151 | without colons in table names, equal ids mean the same rendered table name, document, operation and position, and conversely |
| Identity.EventIdShared | internal/indexing/cdc/event.go:129-174 | an event shares its id with any different change exactly when its table name and document id, joined, hold a colon other than in front and between them; with one of a document that has an id, when that colon is not the last character either |
| Identity.ColonCollides | internal/indexing/cdc/event.go:149-151 | two such events |
| Identity.TablesRenderAlike | internal/indexing/cdc/event.go:165-174 | exactly when two schema and table pairs render to one name |
| Identity.DotCollides | internal/indexing/cdc/event.go:165-174 | two tables whose events share an id without a colon |
| Identity.PlainNamesIdentify | internal/indexing/cdc/event.go:165-174 | schemas without dots and named tables are told apart |
| Identity.PlacesCoincide | internal/indexing/cdc/event.go:153-163 | exactly when two events have one log position: the same LSN, or neither has one and the same millisecond or none |
| Identity.NoLsnCollides | internal/indexing/cdc/event.go:141-144 | two different updates of a row that share an id |

## Left out

- HTTP API, health, metrics, logging, configuration loading, wiring and load generation: plumbing without a hard property.
- The PostgreSQL event path (`Indexer.Index`): the same two-store writes with fewer outcomes; its classification rules are modelled.
- JSON decoding and the reading of row columns, the mapping of column names included: a message decodes to an event or an error by an arbitrary function, so every theorem holds for any decoder.
- Hashes: the routing hash is arbitrary, and the mapping of document ids to point ids is taken to be injective.
- The running of the two retrievers side by side (`internal/search/hybrid/service.go:186-247`): an answer is computed from both hit lists or not at all.
- Pipelines.Pipeline: works on one value for the two stores and the letters, with indexing passed to the runner as a state transformer, instead of sharing the store objects; `Service` holds the methods on the store objects.
- Protocol: values rather than objects, one topic; store calls, commits and pool steps are atomic. Rebalances that refetch into the same tracker, writes that land after a crash, two consumers on one partition, retention and compaction are outside it; `Interleaving` covers overlapping writers of the stores.
- Protocol progress: a continuation that catches up exists; fairness and time are not modelled.
- Retry.BackoffShape: durations are unbounded integers and the multiplier is an exact real, so overflow and rounding of very large waits are not modelled.
- Retry.Runner.Do: the context is looked at when an attempt runs, when it returns and during the wait; the clock between these moments is arbitrary.
- RrfProperties.AgreementWins: exact sums, because rounding is not the point of the bound; under rounding a margin this small is not claimed.
- Rrf.SortResults: the library sort is replaced by an insertion sort with the same contract.
- Stores.VectorIndex.Upsert: the check of a vector's dimension and values is one of the ways a call can fail, because the collection's size is a setting of the client; a failing call may do more here than the check lets it.
- Stores.KeywordIndex.IndexDocument: documents of texts and numbers always encode, so the encoding failure is left out.
- WorkerPools.WorkerPool.Submit: blocking is a precondition, that one of the select's cases is ready; likewise in `Receive`.
- Letters keep the error tree; the shortened text and the time of failure of `internal/dlq/message.go:58-78` are left out.
- Unversioned rows (version not positive) are written and replaced as the code does, but no convergence is claimed for them; neither is it for deletes out of order.
