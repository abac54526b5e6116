# Verified model of the Oecophylla event pipeline and recommender core

This project models the parts of Oecophylla in which many small steps have to add up: an interaction
that becomes a row, an outbox message, a Kafka record and finally a change of a preference vector; the
canonical event log that is replayed into vectors and training labels; the data sets, samples and
rankings built from it. It states what those steps guarantee together and proves it.

`dafny verify dfyconfig.toml` checks everything. Arithmetic is exact (`real`); SQL tables are maps,
sets or sequences, and a transaction is one atomic step. Code that changes things step by step is
modelled as classes and methods whose contracts tie them to specification functions; what the source
promises is then proved about those functions, over all inputs, runs and interleavings.

## Reading guide

| part | modules |
|---|---|
| Delivery: outbox, dispatchers, Kafka log, worker, receipts, vectors | `Pipeline`, `FeatureWorker`, `WorkerRuntime`, `Outbox` |
| Producers: toggles and behaviour batches | `Toggles`, `EventSourcing`, `BehaviorValidation`, `BehaviorIngest`, `BehaviorBatches`, `BehaviorRuns` |
| From the toggles' rows to the stored vector | `ToggleVectors`, `EndToEnd` |
| Names and numbers: weights, targets, messages, counts, limits, stated without the functions that compute them | `TurnWeights`, `ToggleWeights`, `EventWeights`, `LabelTargets`, `Announcements`, `SplitCounts`, `ValidationRules` |
| Replay into preference vectors, and serving them | `Replay`, `PreferenceVector`, `Serving`, `TopicVectors` |
| The stored v2 vector over whole runs | `StoredVectors`, `CurrentVectors` |
| Labels, in Python and in Rust | `Labels`, `LabelDerivation`, `LabelAgreement`, `LabelDifferences`, `LabelContract` |
| Data sets without leakage | `Splits`, `SplitTheorems`, `History`, `HeapSample` |
| Candidates, ranking, metrics | `Candidates`, `Ranking`, `Ranker`, `Ndcg`, `Auc` |
| The resumable embedding rebuild | `Rebuild` |
| Shared facts about sequences, sorting and string order | `Collections`, `Sorting`, `Lexicographic`, `Options` |

Each part shows the same shape: a declarative meaning, the source's loop proved to compute it, and the
laws that the meaning obeys.

## Where the code does not meet its own description

The model follows the code. In these places a promise does not hold as stated; the exact condition
under which it does is proved, usually beside a concrete failing input.

- Cancelling the worker inside `_flush` commits offsets past events that only a local variable holds
  (`Pipeline.CancelMidFlushIsSafeIff`; a run that loses a like: `Pipeline.CancelMidFlushLosesALike`).
- `NOW()` is the start of a transaction, so a toggle that begins first and commits second makes the
  replayed log contradict the interaction rows (`Toggles.ToggleKeepsAgreementIff`; the two toggles:
  `Toggles.LateCommitDisagrees`).
- In v1 an `unhide` has weight 0: a user's vector returns to the rows if and only if the user never
  un-hid a post of the topic (`ToggleVectors.HidesReturnIff`; the run: `ToggleVectors.UnhideLeavesTheHide`).
- A v2 read without an impression takes the client's `visit_id` as its event id, with no user or post in
  it. When two users or two posts share one, the read inserted later is stored and never announced; which
  one that is depends on the order of commits and of the insert, not on instants, row ids or the batch
  (`BehaviorRuns.OwnAtCommitIff`, `BehaviorRuns.OwnEventIff`, `BehaviorRuns.EveryEventIsOwnIff`; the runs:
  `BehaviorRuns.SharedVisitHidesARead`, `BehaviorRuns.OverlapHidesTheOlder`, `BehaviorRuns.InsertOrderDecides`).
- The v2 vector is rebuilt only by a turn that applies something other than `view_observed`. A row newer
  than the vector outdates it when it is written (`CurrentVectors.NewerRowOutdates`), and at rest it is
  current if every write was announced (`CurrentVectors.CurrentAtRest`); in every state it is current exactly
  under `CurrentVectors.CurrentIff`.
- One valid event can abort its whole batch: with a foreign impression that another event names rightly,
  or with metadata the column refuses, since validation measures the size before `event_version` is added
  and never looks for NUL escapes (`BehaviorBatches.BatchCommitsIff`; the batches:
  `BehaviorBatches.ClicksMismatch` with `BehaviorBatches.MismatchAbortsTheBatch`, and
  `BehaviorBatches.TextualViewAborts`).
- A rebuild is not deterministic under conflicting duplicate ids, although the comment at
  `workers/feature_store_worker/app/features.py:133-135` says so (`PreferenceVector.ReplayOrderFreeIff`;
  the two rows: `PreferenceVector.ConflictingDwellExample`).
- Projecting a stored vector to a later instant is not a rebuild at that instant once the evidence for an
  entry exceeds the bound (`Serving.ProjectionIsRebuildIff`; reports: `Serving.SaturatedReports`).
- The Python and Rust labels read durations and timestamps differently. They give equal results exactly
  under `LabelDifferences.LabelsEqualIff`; inputs on which they differ are in
  `LabelAgreement.DurationsDisagree` and `LabelDifferences.OffsetsDisagree`. Validation lets such an input
  through, a v2 view whose metadata duration is no integer (`BehaviorValidation.V2ReadsHaveOneDurationIff`,
  `BehaviorValidation.NonIntegerDurationDivides`).
- A click of an unknown event version stops the offline history build, while the online SQL filter
  never sees it (`History.OnlineEqualsOfflineIff`; one click: `History.UnknownVersionDivides`). No request
  writes such a row, so it takes another writer of the table (`History.ApiRowsAgree`).
- 32 permanently rejected outbox rows starve every later row (`Outbox.SentIffFewBlockers`; the queue:
  `Outbox.StarvedForever`).
- A write that commits with a date the rebuild's checkpoint has passed is skipped
  (`Rebuild.LateWriteKeepsCoverageIff`; one write: `Rebuild.LateWriteIsSkipped`).
- nDCG can exceed 1 on rankings that repeat a relevant item: under every discount when an item's two
  copies lead the ranking (`Ndcg.RepeatExceeds`). That no discount lets it exceed 1 is equivalent to the
  top k hitting no more often than there are relevant items (`Ndcg.BoundedIff`); under the code's own
  discount that condition is enough but not needed (`Ndcg.LateRepeatStaysBelow`). Its label form disagrees
  with its set form when relevant items are missing from the ranking (`Ndcg.LabelsAgreeIff`; one item
  missing: `Ndcg.LabelsMissAnItem`).

## Model

| member | source | states |
|---|---|---|
| Pipeline.EveryRunIsSafe | backend/services/interaction-service/src/outbox.rs:89-174 | in every state of every run of enqueue, lock, acknowledge, crash, resend, cleanup, poll, flush, partial failure, commit and worker restart: each enqueued id is pending or in the log, each record below the position is settled or in the worker's hands, each record below the committed offset is settled, no row is locked twice, no id is claimed twice, vectors are the folds of their claims |
| Pipeline.StepKeepsInv | workers/feature_store_worker/app/main.py:113-210 | every single step of the protocol keeps that invariant |
| Pipeline.VectorMovesOnlyWithAFirstReceipt | workers/feature_store_worker/app/main.py:212-358 | a living user's vector changes only in a committed turn of its own batch, together with a receipt the table did not hold before |
| Pipeline.QuiescentMeansExactlyOnce | workers/feature_store_worker/app/main.py:40-51 | with the outbox sent and all offsets committed, every enqueued id is in the log and each accepted record's id has exactly one claim |
| Pipeline.CancelMidFlushIsSafeIff | workers/feature_store_worker/app/main.py:135-152 | cancelling inside a flush loses nothing if and only if every event it drops is already settled |
| Pipeline.CancelMidFlushLosesALike | workers/feature_store_worker/app/main.py:135-152 | a run of one like in which such a cancellation loses it |
| Pipeline.FlushRunsTheProtocol | workers/feature_store_worker/app/main.py:145-210 | settling a batch at once, as the worker object does, is a run of the protocol's per-user steps with the same database, requeued events and outcome |
| FeatureWorker.CommitKeepsLedger | workers/feature_store_worker/app/main.py:231-353 | one user's transaction keeps receipts, distinct claims and folded vectors consistent, adds exactly its own ids, and leaves other users alone |
| FeatureWorker.RouteAllFacts | workers/feature_store_worker/app/main.py:155-176 | grouping keeps exactly the events the worker accepts, as often as they came, each user's in order and in one batch of that user, with no empty batch and no user twice |
| FeatureWorker.RoutedIff | workers/feature_store_worker/app/main.py:155-176 | an envelope goes to a user exactly when its type and fields are acceptable, it names that user and has an id |
| FeatureWorker.FoldIsTotal | workers/feature_store_worker/app/features.py:92-105 | the folded vector is, topic by topic, the start plus the sum of the claims' shares |
| FeatureWorker.ClaimOrderIrrelevant | workers/feature_store_worker/app/features.py:92-105 | two claim orders of the same claims fold to the same weights |
| TurnWeights.TurnMoves | workers/feature_store_worker/app/main.py:285-327 | a committed turn of a living user moves each topic's stored weight by the points of the events it claims, split evenly over the topics read off their posts' rows |
| TurnWeights.FreshEventMoves | workers/feature_store_worker/app/main.py:285-307 | one fresh event: its type's points over the number of its post's topics, for each time a topic is named; topics, else tags, else "general" |
| TurnWeights.PartsAreEven | workers/feature_store_worker/app/features.py:92-105 | different topics get equal parts, and what is not named gets none |
| WorkerRuntime.DedupeThenClaim | workers/feature_store_worker/app/main.py:218-253 | de-duplicating in memory and then claiming receipts selects exactly the first occurrences of unclaimed ids |
| WorkerRuntime.Worker.Flush | workers/feature_store_worker/app/main.py:145-210 | the object's flush drains the buffer, settles every user with its outcome, requeues the failed users' events in front, and reports success exactly when there are none |
| WorkerRuntime.Worker.ApplyForUser | workers/feature_store_worker/app/main.py:212-353 | the object's database ends as the specified transaction of that user's events |
| WorkerRuntime.Worker.Turn | workers/feature_store_worker/app/main.py:113-143 | one turn of the loop takes the records in, flushes exactly when the buffer is full or old enough, and lets the offsets move exactly when every user of that flush succeeded |
| WorkerRuntime.MicroBatchBuffer.ExtendRecords | workers/common/oecophylla_worker_common/kafka.py:70-75 | appends every decodable value of every partition, in order |
| WorkerRuntime.MicroBatchBuffer.Drain | workers/common/oecophylla_worker_common/kafka.py:92-96 | returns the whole content, leaves the buffer empty and restarts its clock |
| Outbox.OutboxTable.DispatchBatch | backend/services/interaction-service/src/outbox.rs:89-105 | a batch attempts pairwise distinct rows, exactly the oldest pending ones, at most 32, and marks sent exactly those not rejected |
| Outbox.OutboxTable.CleanupBatch | backend/services/interaction-service/src/outbox.rs:67-87 | deletes exactly the rows sent longest ago, at most 500 of those sent more than seven days before, and leaves every pending row in place |
| Outbox.BatchInNumbers | backend/services/interaction-service/src/outbox.rs:89-105 | a batch is at most 32 pending rows, all if there are fewer, the first created first and then the smaller id |
| Outbox.CleanupInNumbers | backend/services/interaction-service/src/outbox.rs:67-87 | a cleanup is at most 500 rows sent over seven days ago, all if there are fewer, the first sent first and then the smaller id |
| Outbox.RoundMoves | backend/services/interaction-service/src/outbox.rs:89-105 | with fewer than 32 rejected rows queued before it, each round sends a healthy row or shortens the healthy queue before it |
| Outbox.SentIffFewBlockers | backend/services/interaction-service/src/outbox.rs:89-105 | after enough rounds a healthy row has been sent if and only if fewer than 32 permanently rejected rows were queued before it |
| Outbox.StarvedForever | backend/services/interaction-service/src/outbox.rs:89-105 | for every length a run of full batches that never attempts the row behind 32 rejected ones |
| Toggles.InteractionTables.TogglePost | backend/services/interaction-service/src/handlers.rs:657-750 | row, counter, canonical event and outbox message change together as specified, or nothing changes, with the status the handler returns |
| Toggles.EveryRunIsConsistent | backend/services/interaction-service/src/handlers.rs:657-750 | after any run each (user, post, type) log alternates action and reversal, the row exists exactly when an action is last, counters equal row counts, and each event has its envelope |
| Toggles.ToggleKeepsAgreementIff | backend/services/interaction-service/src/repo.rs:274-383 | a toggle keeps replay and rows in agreement if and only if its event sorts after its key's earlier ones; other keys are untouched |
| Toggles.OrderedRunsAgree | backend/services/interaction-service/src/repo.rs:274-383 | with increasing (occurred_at, id) per key, replay equals the rows after every run |
| Toggles.LateCommitDisagrees | backend/services/interaction-service/src/repo.rs:274-383 | an unlike that began first and committed second leaves a replayed like without a row |
| ToggleWeights.ToggleAppends | backend/services/interaction-service/src/handlers.rs:685-745 | a changing toggle appends one message and one canonical row, each with the type of its kind and direction, one id, the user and the post, an action weighing the same in both; any other appends nothing |
| ToggleVectors.DeltasLeaveRowsAndResidue | workers/feature_store_worker/app/features.py:54-105 | after any run the deltas of a user's toggles are, topic by topic, the rows that remain plus what each reversal failed to take back |
| ToggleVectors.DeltasTelescopeToRows | workers/feature_store_worker/app/features.py:54-105 | after any run a user's like, save and share deltas sum, topic by topic, to the rows that remain |
| ToggleVectors.HidesReturnIff | workers/feature_store_worker/app/features.py:54-73 | with hides the total is at most the rows' weight, and equal if and only if the user never un-hid a post of the topic |
| ToggleVectors.UnhideLeavesTheHide | workers/feature_store_worker/app/features.py:54-73 | a run of one hide and its unhide: no row is left and the topic weighs -2 |
| EndToEnd.StoredVectorIsTheRows | workers/feature_store_worker/app/main.py:145-358 | when a run of the protocol that enqueued what a run of toggles put in the outbox is at rest, outbox sent and offsets committed, the user's stored vector weighs each topic as the user's rows plus what unhides failed to take back, and exactly as the rows if and only if no unhide bore on the topic |
| EndToEnd.SentOutboxCarriesToggles | backend/services/interaction-service/src/outbox.rs:89-174 | once the outbox is sent, the log holds every toggle's envelope of the user and nothing else that routes to the user |
| ToggleWeights.StoredWeight | workers/feature_store_worker/app/features.py:14-105 | at rest a user's stored weight of a topic is 1.5 per like, 2.5 per save and share, -2.0 per hide among the rows, each over its post's number of topics, and -2.0 so divided per unhide there ever was |
| EventSourcing.StandsIffLatestIsAction | workers/feature_store_worker/app/features.py:210-216 | what the replay lets stand for a key is decided by the key's latest event alone |
| EventSourcing.ReplayEqualsRows | workers/feature_store_worker/app/features.py:154-222 | after ordered runs the replay's standing likes, saves, shares and hides are the user's interaction rows |
| Replay.ActiveIsMeant | workers/feature_store_worker/app/features.py:210-216 | the active map holds exactly the stateful events that nothing later repeats or reverses |
| Replay.VisitIsMeant | workers/feature_store_worker/app/features.py:184-208 | each open direct-visit record summarises exactly the events since the last break by hour gap, second view, falling dwell or destroy |
| Replay.StartsMeansBreaks | workers/feature_store_worker/app/features.py:184-198 | the automaton opens a new visit exactly where the declarative segmentation breaks |
| Replay.DwellAfterView | workers/feature_store_worker/app/features.py:184-209 | a long enough dwell after a view of the same post in the session counts by itself exactly when the view did not, or left, or was over an hour before |
| Replay.AdditiveIsMeant | workers/feature_store_worker/app/features.py:159-218 | the additive contributions are exactly the always-counting events and the first qualified read per impression, per explicit visit, per direct visit, and every unattributed one |
| PreferenceVector.BuildPreferenceVectorV2 | workers/feature_store_worker/app/features.py:108-243 | the whole build, loop by loop, yields the vector its events declaratively stand for, or the error for a bad half-life or bound |
| PreferenceVector.UniqueEvents | workers/feature_store_worker/app/features.py:133-152 | the de-duplication loop keeps the first event of each id not later than the reference |
| PreferenceVector.ReplayEvents | workers/feature_store_worker/app/features.py:154-222 | the imperative replay keeps the automaton's state, event by event |
| PreferenceVector.VectorDependsOnSet | workers/feature_store_worker/app/features.py:108-243 | with ids identifying events, permuting or repeating the input gives the same vector |
| PreferenceVector.ReplayOrderFreeIff | workers/feature_store_worker/app/features.py:133-152 | replay ignores input order if and only if no id has two different least events |
| PreferenceVector.ConflictingDwellExample | workers/feature_store_worker/app/features.py:133-152 | two dwell events with one id whose order decides what is replayed |
| PreferenceVector.AddSaturatingAt | workers/feature_store_worker/app/features.py:225-236 | adding shares one by one with a cut at each step equals one cut of the sum |
| EventWeights.OneEventVector | workers/feature_store_worker/app/features.py:217-243 | the vector of one event of any type: its points times the decay, split evenly over its non-empty topics, in the channel of its sign, cut at the bound; nothing for what does not count |
| EventWeights.OneEventAddsUp | workers/feature_store_worker/app/features.py:225-236 | however many topics it has, the entries add up to the event's points times the decay |
| PreferenceVector.DecoderAccepts | recommendation_api/app/db.py:368-412 | with a bound of at most 10 every built vector passes the reader's range check |
| StoredVectors.StoredVectorIsLastRebuild | workers/feature_store_worker/app/main.py:283-345 | in every state of every run of protocol steps, row writes, purges and backfills, a living user has a stored v2 vector exactly when it was ever rebuilt, and it is the build of the user's canonical rows as of the last turn that applied something other than `view_observed`, or backfill |
| StoredVectors.PresentTopics | workers/feature_store_worker/app/main.py:578-593 | a row without a snapshot counts under its post's topics other than "" and "general", else its tags, else "general" |
| CurrentVectors.AnnouncedIsRebuilt | workers/feature_store_worker/app/main.py:231-345 | once the outbox is sent and the offsets are committed, every event so announced has been followed by a rebuild of its user's vector |
| CurrentVectors.CurrentAtRest | workers/feature_store_worker/app/main.py:303-345 | at rest, when every write of the user's rows was announced by such an event, the stored vector is the build of all the user's canonical rows |
| CurrentVectors.CurrentIff | workers/feature_store_worker/app/main.py:283-345 | in every state of every run the stored vector is current if and only if the rows of the last rebuild and those of now build one vector |
| CurrentVectors.NewerRowOutdates | workers/feature_store_worker/app/main.py:283-325 | writing a row dated after the vector's reference leaves the vector behind |
| Serving.ProjectionIsRebuildIff | workers/feature_store_worker/app/features.py:246-265 | projecting a vector forward equals rebuilding it later if and only if nothing decays or no entry's evidence exceeds the bound |
| Serving.SaturatedReports | workers/feature_store_worker/app/features.py:246-265 | for every bound, reports that together outweigh it (three for 10): projection and rebuild differ as soon as anything decays |
| Serving.BlendPreferenceChannels | workers/feature_store_worker/app/features.py:268-314 | the worker's blend gives each topic its share of behaviour and declared interest, without zero entries, or the coefficient error |
| Serving.MergePreferenceVectorV2 | recommendation_api/app/db.py:263-319 | the API's merge is the same blend of the channels as stored; the time of serving enters only through the confidence; errors exactly for the refused inputs, a non-positive half-life among them |
| Serving.ApiMergeIsWorkerBlend | recommendation_api/app/db.py:284-319 | the API's merge of a stored vector equals the worker's blend of that vector projected to serving time, at equal confidence |
| Serving.NormalizeCancels | recommendation_api/app/db.py:415-417 | decay cancels out of normalised channels |
| Serving.BlendWithin | recommendation_api/app/db.py:294-319 | every blended weight lies in [-1, 1] |
| Serving.BehaviorOnly | workers/feature_store_worker/app/features.py:279-303 | without declared topics a weight is behaviour's share of the coefficients times the confidence times the topic's parts of the two channels |
| Serving.DeclaredOnly | workers/feature_store_worker/app/features.py:285-312 | without behaviour each declared topic gets an even part of the declared share of the coefficients |
| Serving.TrustInNumbers | recommendation_api/app/db.py:291-292 | evidence counts in full once a channel reaches the saturation, in proportion to the larger channel below |
| Labels.StrongestIsMeaning | recommendation_label/__init__.py:213-231 | choosing by precedence among the loop's candidates, with the exposure fallback, is the label's declarative meaning |
| Labels.FoldIsMeant | recommendation_label/__init__.py:177-211 | the loop's variables mean: unreversed actions, past irreversible signals, qualified reads, visibility |
| LabelDerivation.DeriveLabel | recommendation_label/__init__.py:151-239 | the Python derivation computes that meaning, its counts and order, and rejects exactly the bad threshold, conflicts, unreadable times and durations; event types are those of the contract's table |
| LabelDerivation.DeriveLabelV2 | backend/services/interaction-service/src/label_contract.rs:52-207 | the Rust derivation computes that meaning, under the contract's table of event types, for whatever order its hash map yields |
| LabelTargets.PythonTarget | recommendation_label/__init__.py:213-231 | of the accepted events, by name: a report or an unreversed hide gives 0, else any engagement of that label version 1, else 0 when the window is closed and none when open |
| LabelTargets.RustTarget | backend/services/interaction-service/src/label_contract.rs:105-207 | the same of every Rust result |
| LabelTargets.PythonOrder | recommendation_label/__init__.py:169-178 | Python accepts by instant of the event, then of its ingestion, then by the text of its id |
| LabelTargets.RustOrder | backend/services/interaction-service/src/label_contract.rs:84-102 | Rust by the texts of the two times and of the id |
| LabelAgreement.PythonAndRustAgree | backend/services/interaction-service/src/label_contract.rs:52-207 | on events whose times and durations both read alike, label, target, counts and processing order are equal, or both reject |
| LabelAgreement.OrdersAgreeIff | recommendation_label/__init__.py:169-176 | both process identified events in one order if and only if timestamp texts compare as the instants they denote |
| LabelAgreement.MeaningsAgreeIff | recommendation_label/__init__.py:203-231 | two readings of one log give one label if and only if both or neither see a qualified read, or something stronger decides |
| LabelAgreement.DurationsDisagree | backend/services/interaction-service/src/label_contract.rs:38-50 | a v1 view that Rust counts as qualified and Python does not |
| LabelDifferences.LabelsEqualIff | recommendation_label/__init__.py:151-239 | the two results on identified events of the same kinds are equal if and only if both reject a threshold or conflict, or Python can read all times and durations, timestamp texts compare as their instants, and both or neither see a qualified read unless something stronger decides |
| LabelDifferences.OffsetsDisagree | backend/services/interaction-service/src/label_contract.rs:84-105 | two events with different UTC offsets, put in opposite orders by the two derivations, whose results then differ |
| LabelAgreement.LabelIsOrderFree | recommendation_label/__init__.py:151-239 | the label of identified events does not depend on their order |
| LabelContract.TextOrderIsNumberOrder | backend/services/interaction-service/src/label_contract.rs:84-105 | strings of one fixed-width mask compare as the numbers their digits spell |
| LabelContract.SameDuration | recommendation_label/__init__.py:203-211 | with one integer in all duration fields both languages read it |
| LabelContract.ContractEventsAgree | recommendation_label/__init__.py:151-239 | string ids and types, fixed-width UTC timestamps or none, and one duration per read are enough for the two derivations to agree, unless the least instant is written out beside an event without a time |
| BehaviorValidation.SignalIsTheRustReading | backend/services/interaction-service/src/handlers.rs:404-485 | the qualified signal of an accepted read is what the Rust labels read from the stored row |
| BehaviorValidation.SignalMeetsPythonIff | backend/services/interaction-service/src/handlers.rs:417-450 | the Python labels agree with that signal if and only if the duration they read is on the same side of the threshold, or unreadable while the signal is unset |
| BehaviorValidation.PythonRaisesIff | recommendation_label/__init__.py:203-211 | Python rejects an accepted read if and only if that duration is no integer to it |
| BehaviorValidation.OneDurationIff | backend/services/interaction-service/src/handlers.rs:404-485 | an accepted read has one duration if and only if its metadata's is absent or the integer stored beside it |
| BehaviorValidation.V2ReadsHaveOneDurationIff | backend/services/interaction-service/src/handlers.rs:427-434 | an accepted v2 read has one duration if and only if its metadata's, when present, is an integer |
| BehaviorValidation.NonIntegerDurationDivides | backend/services/interaction-service/src/handlers.rs:417-434 | a v2 detail view with a nested duration and dwell 0 is accepted, then rejected by the Python derivation and labelled by every Rust one |
| ValidationRules.AcceptedIff | backend/services/interaction-service/src/handlers.rs:337-549 | an event is accepted exactly when it keeps its kind's rules: the limits of 8192 bytes, 30 minutes, 5 seconds or the qualified read, the metadata keys and triggers of each kind |
| ValidationRules.AcceptedIsStoredAs | backend/services/interaction-service/src/handlers.rs:337-518 | what is kept of it: a view lasts as long as its longer duration, long reads are qualified, the time is cut to one day back and five minutes ahead |
| ValidationRules.RefusalNamesTheRule | backend/services/interaction-service/src/handlers.rs:337-549 | the code of a refusal names a rule that the event breaks |
| BehaviorIngest.InteractionService.IngestBehaviorEvents | backend/services/interaction-service/src/handlers.rs:89-335 | validation, the three filters, insert, counters and outbox change the tables and answer as specified, in whatever order the insert returns its rows |
| BehaviorBatches.CountsAddUp | backend/services/interaction-service/src/handlers.rs:127-219 | accepted, duplicate and rejected add up to the batch |
| BehaviorBatches.NewIsMeant | backend/services/interaction-service/src/handlers.rs:102-203 | exactly the first valid copy of an unstored client id, on an existing post and with an impression some such event names rightly, is inserted |
| BehaviorBatches.BatchCommitsIff | backend/services/interaction-service/src/repo.rs:135-233 | a batch commits if and only if every event that passes the filters has metadata the column takes and is already known or names its own impression rightly |
| BehaviorBatches.OneAbortsAll | backend/services/interaction-service/src/handlers.rs:165-203 | one such event leaves every table as it was and fails the request |
| BehaviorBatches.TextualViewAborts | migrations/20260827000013_recommendation_telemetry.sql:72-74 | beside any other events a valid v1 view whose text holds a NUL, or brings the metadata within 26 bytes of the limit that validation measures, aborts the batch |
| BehaviorBatches.TextualViewFits | backend/services/interaction-service/src/handlers.rs:367-381 | validation takes such a view with a text of up to 8145 bytes, the column only up to 8119 and without a NUL |
| BehaviorBatches.MismatchAbortsTheBatch | migrations/20260827000013_recommendation_telemetry.sql:82-85 | an event with its own impression and one that borrows it for another post fail as a batch |
| BehaviorBatches.ResendChangesNothing | backend/services/interaction-service/src/repo.rs:229-233 | sending a committed batch again at any later instant accepts nothing and changes no table |
| ValidationRules.BatchSizes | backend/services/interaction-service/src/handlers.rs:89-110 | a request without events or with more than 100 is refused and changes nothing |
| ValidationRules.ErrorsAreMeant | backend/services/interaction-service/src/handlers.rs:112-233 | the answered errors are exactly the unreadable and the invalid events, the first copies on no post, and those whose impression nothing in the batch names rightly |
| BehaviorRuns.EveryRunKeeps | backend/services/interaction-service/src/handlers.rs:138-283 | after every run of batches each stored row's impression is its user's and post's, view counters equal stored views, and under each event id the outbox holds the message of the row with it that was inserted first, commit by commit and in each insert's own order |
| BehaviorRuns.OwnAtCommitIff | backend/services/interaction-service/src/repo.rs:55-88 | whatever the tables were, a committing request leaves a row announced under its own user and post if and only if the outbox held such a message under the row's event id, or none and the insert's first row with that id is of the same post |
| BehaviorRuns.MessagesStay | backend/services/interaction-service/src/repo.rs:55-88 | no request changes a message that is in the outbox, so what a row's commit decided stays |
| BehaviorRuns.OwnEventIff | backend/services/interaction-service/src/events.rs:114-153 | after every run of possibly overlapping requests a row's message in the outbox names its own user and post if and only if the first row inserted with its event id is of the same user and post |
| BehaviorRuns.EveryEventIsOwnIff | backend/services/interaction-service/src/events.rs:114-153 | all rows are announced under their own user and post if and only if no two rows of different users or posts share an event id |
| BehaviorRuns.SharedVisitHidesARead | backend/services/interaction-service/src/handlers.rs:489-492 | two requests with one visit id, at any instants and with any row ids: the qualified read that commits second is stored and the outbox holds nothing of its user |
| BehaviorRuns.OverlapHidesTheOlder | backend/services/interaction-service/src/handlers.rs:501-505 | of two overlapping requests the one validated first, with the smaller row id, is the hidden one when it commits second |
| BehaviorRuns.InsertOrderDecides | backend/services/interaction-service/src/repo.rs:226-233 | for two reads of one visit id in one batch, the order in which the insert yields them decides which post is announced |
| BehaviorRuns.MessagesAreRouted | workers/feature_store_worker/app/main.py:155-176 | the worker accepts the message of every stored row, for that row's user and under its event id |
| BehaviorRuns.ImpressionReadsCollapse | backend/services/interaction-service/src/events.rs:114-153 | all qualified v2 reads of one impression share one outbox event and are of one user and one post |
| Announcements.CommitAnnounces | backend/services/interaction-service/src/handlers.rs:234-300 | after a committed request the outbox holds, under each event id that is new and first in the insert, the message its row calls for: type, version, duration, user and post, by kind, signal and feature version |
| Announcements.OnlyRowsAreAnnounced | backend/services/interaction-service/src/handlers.rs:234-300 | every new event id in the outbox is that of an announced row of the insert |
| Announcements.StoredReadsAreAnnounced | backend/services/interaction-service/src/handlers.rs:234-300 | every stored click and long read is announced in the sense of `CurrentVectors.Announces`, given fresh row ids and a first row of the same reader under its event id |
| Splits.SnapSplitBoundary | ai_pipeline/build_dataset.py:561-597 | the two loops return the specified snap |
| Splits.SnapIsBest | ai_pipeline/build_dataset.py:561-597 | the snapped cut beats every other tie-free cut: both sides filled if possible, then nearest, then smaller |
| Splits.SnapSeparates | ai_pipeline/build_dataset.py:561-597 | both sides are non-empty whenever two distinct times exist |
| Splits.SplitRankingRows | ai_pipeline/build_dataset.py:504-558 | the ranking splitter's loops compute the specified split |
| Splits.SplitRows | ai_pipeline/build_dataset.py:135-198 | the older splitter's loops compute the specified split |
| SplitTheorems.RankingSplitIsGood | ai_pipeline/build_dataset.py:504-558 | output rows are the input rows with only `split` changed, each request lies in one split, and splits are strictly chronological |
| SplitTheorems.LegacySplitIsGood | ai_pipeline/build_dataset.py:135-212 | the same for the older splitter, so its assertions cannot fire |
| SplitCounts.RankingSplitCounts | ai_pipeline/build_dataset.py:525-531 | when no two requests share a time, the three splits have the rounded shares of the requests, with the minima of one and the cut of validation |
| SplitCounts.LegacySplitCounts | ai_pipeline/build_dataset.py:153-167 | the same of the older splitter |
| SplitCounts.RankingSplitOrder | ai_pipeline/build_dataset.py:556-558 | rows come out by instant served, position and sample id |
| SplitCounts.LegacySplitOrder | ai_pipeline/build_dataset.py:196 | rows come out by instant visible and sample id |
| SplitCounts.SnapMoves | ai_pipeline/build_dataset.py:561-597 | a moved cut goes to the nearest place between two times, the earlier of two; with one time only, everything goes to the side that must not be empty |
| SplitTheorems.GoodSplitPassesValidation | ai_pipeline/build_dataset.py:997-1050 | on such a split no timestamp crosses splits, every earlier split is strictly older, and the validator's split checks find nothing |
| History.BuildHistorySnapshot | ai_pipeline/build_dataset.py:291-341 | the build computes the snapshot of the latest qualifying clicks, or the error for negative limits, an unknown click version or conflicting features |
| History.SnapshotIsMeant | ai_pipeline/build_dataset.py:291-341 | whenever a snapshot is answered, it lists the newest past v2 clicks up to the limit, all if there are fewer, oldest first, each with the latest version of its article at the click; only clicks without an article are left out |
| History.FetchUserHistory | recommendation_api/app/db.py:185-260 | the online build computes the snapshot of its bounded newest-first lookup |
| History.OnlineEqualsOfflineIff | recommendation_api/app/db.py:185-260 | over the same rows, online equals offline if and only if no click of the user has an unknown version or the limits are zero |
| History.ApiRowsAgree | backend/services/interaction-service/src/main.rs:173-178 | over rows of the versions v1 and v2, the only ones a request writes, online equals offline |
| History.UnknownVersionDivides | recommendation_label/__init__.py:127-134 | one click of another version: an empty history online, an error offline |
| History.EntriesDoNotLeak | ai_pipeline/build_dataset.py:246-288 | every entry is strictly before the reference time and carries the latest feature that existed at the click |
| History.SelectFeatureIsLatest | ai_pipeline/build_dataset.py:271-288 | of the features whose two timestamps are at or before the click none has a later source than the chosen one, of those with its source none was computed later, and of those none has a larger id |
| History.SelectionIsNewest | ai_pipeline/build_dataset.py:291-341 | a qualifying click left out of a full selection is no later than any click in it |
| HeapSample.SampleBehaviors | ai_pipeline/mind_large.py:29-65 | one pass with a bounded heap returns what sorting the whole file and taking `limit` lines returns, or the same error |
| HeapSample.LargestInsert | ai_pipeline/mind_large.py:49-53 | keeping the largest `n` commutes with inserting: push, replace or ignore |
| HeapSample.SampleIgnoresLineOrder | ai_pipeline/mind_large.py:29-65 | sample and errors do not depend on the order of the lines |
| HeapSample.SampleIsLowest | ai_pipeline/mind_large.py:29-65 | the sample is `limit` kept lines in priority order, and no line left out has a lower priority |
| Candidates.GatherCandidates | recommendation_api/app/features.py:262-328 | the merge loops and the early-stopping backfill compute the specified pool |
| Candidates.PoolNeverUnderfills | recommendation_api/app/features.py:305-328 | ids are distinct, none excluded, all offered, and as many as the pool size allows of all that any source offers |
| Candidates.PoolSize | recommendation_api/app/features.py:305-328 | when sources draw from the eligible posts, the size is the smaller of pool size and eligible posts not excluded |
| Candidates.FirstSeenWins | recommendation_api/app/features.py:299-306 | of the posts with one id the earliest source's stays |
| Candidates.OverFetchFills | recommendation_api/app/features.py:307-315 | fetching pool size plus seen plus excluded leaves enough fresh posts, or nothing eligible unfetched |
| Ranking.DiversityRerank | recommendation_api/app/ranking.py:111-142 | the greedy loop computes the specified order |
| Ranking.RerankedPicksTheBest | recommendation_api/app/ranking.py:124-141 | each pick has the highest adjusted score of all not yet picked, ties going to the higher score |
| Ranking.RerankedDraws | recommendation_api/app/ranking.py:121-142 | the result is a sub-multiset of the items of size min(limit, n) |
| Ranking.RerankDistortion | recommendation_api/app/ranking.py:121-142 | nothing ranked later or left out outscores a pick by 0.17 or more, and nothing outscores the first |
| Ranking.RerankOrder | recommendation_api/app/ranking.py:121-142 | an earlier served item's score exceeds any later one's less 0.17 |
| Ranking.DistortionIsTight | recommendation_api/app/ranking.py:124-138 | every smaller gap occurs |
| Ranking.SameAuthorGivesWay | recommendation_api/app/ranking.py:124-138 | a follow-up by the last item's author gives way to a fresh item less than 0.08 below it |
| Ranking.SameTopicGivesWay | recommendation_api/app/ranking.py:124-138 | a follow-up on the last item's topic to one less than 0.09 below it |
| Ranking.SeenTopicGivesWay | recommendation_api/app/ranking.py:133-137 | an item on an earlier topic to one less than 0.04 below it, while fewer than three topics were seen |
| Ranking.AlikeReranked | recommendation_api/app/ranking.py:121-142 | items with equal posts and scores are ordered alike, whatever else differs |
| Ranker.RankerRuntime.ScoreAsync | recommendation_api/app/model_ranker.py:206-229 | up to its await the request is answered, falls back as busy, or takes the slot, as the machine's arrival step |
| Ranker.OneThread | recommendation_api/app/model_ranker.py:206-229 | in every interleaving at most one scoring thread runs |
| Ranker.StartsIffIdle | recommendation_api/app/model_ranker.py:215-223 | an arriving request takes the slot if and only if no thread runs, however earlier requests ended |
| Ranker.EveryAnswer | recommendation_api/app/model_ranker.py:206-293 | every answer is for the request's own items: fallbacks untouched, shadow and heuristic scores and order unchanged, model scores probabilities |
| Ranker.ServedIsAnswer | recommendation_api/app/model_ranker.py:206-293 | every served answer is, by mode and prediction, the model's scores and reasons, the heuristic items with or without noted scores, or the fallback |
| Ranker.ShadowServesTheHeuristicFeed | recommendation_api/app/main.py:230-235 | in every interleaving shadow mode, and any fallback, serve the heuristic mode's posts in its order |
| Rebuild.BatchRebuilder.Run | workers/nlp_worker/app/rebuild.py:83-132 | over any failures, crashes and finitely many concurrent writes the run ends; the checkpoint never moves back; processed = created + unchanged + failed with fallback counted as failed; created never exceeds new features; attempts are bounded; no failure means every published post is indexed; a healthy world means no failure |
| Rebuild.BatchRebuilder.One | workers/nlp_worker/app/rebuild.py:91-104 | at most max_retries + 1 attempts, all of them used before giving up, and a success leaves the feature stored |
| Rebuild.AttemptAnswers | workers/nlp_worker/app/embedding_worker.py:90-150 | how an attempt is answered: an invalid text falls back whatever is stored, a failing encoder only when no feature is stored |
| Rebuild.AttemptLeaves | workers/nlp_worker/app/embedding_worker.py:90-150 | what it leaves in the two tables, however far it got |
| Rebuild.BatchRebuilder.Resume | workers/nlp_worker/app/rebuild.py:55-64 | over any sequence of crashes and resumes the checkpoint keeps telling the truth |
| Rebuild.CoverageAdvances | workers/nlp_worker/app/repository.py:75-99 | after a fully successful page every published post at or before its last key has a feature for its present content, whatever moved meanwhile |
| Rebuild.PageIsMeant | workers/nlp_worker/app/repository.py:75-99 | a page holds exactly the published posts beyond the cursor up to its own last key |
| Rebuild.PageShrinks | workers/nlp_worker/app/repository.py:75-99 | paging on leaves strictly fewer posts |
| Rebuild.LateWriteKeepsCoverageIff | workers/nlp_worker/app/repository.py:79-92 | a write keeps the checkpoint's promise if and only if it is unpublished, dated beyond it, or already indexed |
| Rebuild.LateWriteIsSkipped | workers/nlp_worker/app/repository.py:79-92 | a write the checkpoint has passed: every later page is empty and the post stays without its feature |
| Ndcg.NdcgIsNormalised | recommendation_api/app/metrics.py:39-54 | on distinct rankings both set forms agree, lie in [0, 1], and are 1 exactly when the first min(k, relevant) ranks are all hits |
| Ndcg.GainBound | ai_pipeline/evaluate.py:51-60 | gain is at most the ideal of as many hits, with equality exactly when hits come first |
| Ndcg.LabelsAgreeIff | ai_pipeline/evaluate.py:377-387 | the label form agrees with the set form if and only if nothing relevant is in the top k, or k or all relevant items are found |
| Ndcg.LabelsMissAnItem | ai_pipeline/evaluate.py:377-387 | one of two relevant items ranked first: 1 by the labels, less by the set |
| Ndcg.BoundedIff | ai_pipeline/evaluate.py:51-60 | no falling discount lets the score exceed 1 if and only if the top k hits no more often than there are relevant items |
| Ndcg.RepeatExceeds | ai_pipeline/evaluate.py:51-60 | the only relevant item ranked twice scores above 1 under every falling discount |
| Ndcg.LateRepeatStaysBelow | ai_pipeline/evaluate.py:51-60 | under a discount of 1 at the first and 1/2 at the third rank, a relevant item ranked third and fourth scores below 1 |
| Auc.AucMeaning | recommendation_api/app/metrics.py:77-94 | pairwise AUC lies in [0, 1], is complemented by swapping classes, and is 1 exactly when every positive beats every negative |
| Auc.ImplementationsMean | ai_pipeline/evaluate.py:397-407 | on binary labels with both classes the two implementations give one score in [0, 1], 1 exactly when every positive scores above every negative and 0 exactly when below |

## Left out

- Floating point: `round(..., 4)`, `round(..., 10)` and the order of float additions; weights and scores are exact reals.
- `exp2`, `log2`, SHA-256 priorities, `heapq` internals, `datetime.fromisoformat` and `int(str)` are parameters with the facts used of them.
- Kafka and PostgreSQL themselves: acknowledgement, row locks, `SKIP LOCKED` and `ON CONFLICT` are the protocol steps' meaning; several dispatchers run in `Pipeline`, one table object in `Outbox`.
- Two feature workers at once: the vector read-modify-write takes no row lock, so the model has one.
- The outbox's `last_error` texts and polling intervals.
- Cleanup in `BehaviorRuns`: its outbox is the history of all messages, of which the table drops those sent seven days ago. `BehaviorRuns.OwnAtCommitIff` holds of any tables.
- New rows that sort before a waiting one: `Outbox.RoundOf` adds rows only behind it, which `NOW()` at the start of a transaction does not promise.
- The vector table's own range check: a weight over 10, possible only under a bound over 10, would roll the turn back.
- Redis trending scores, feed and history caches, unread counts: documented as approximate or time-based.
- Recent-topic preferences, and the paging of `_backfill_v2` (a backfill is one step in `StoredVectors`).
- `comment_count`, notifications, moderation, search and keyset lists ordered by time alone.
- The `reversed_event_types` report field of the Python label, `datetime`, UUID and non-mapping event inputs, and JSON beyond the fields the derivations read; canonical payload equality is equality of the event.
- What PostgreSQL makes of a metadata text (whether it casts to jsonb, and its size there) is a field of the event; message texts of validation errors, and metrics.
- Direct visits without a visit id in `BehaviorIngest`: their outbox identity is the row, while `Replay` collapses them per visit; both are modelled, the difference is not counted.
- The concurrency of the attempts of one rebuild batch: they are taken one post after another, with other writers between any two.
- The rebuild assumes that every write is dated later than what exists; `Rebuild.LateWriteKeepsCoverageIff` is about the others.
- The set `eligible` of `Candidates` is stable during one request; the SQL of the individual sources is a parameter.
- NRMS scoring, feature snapshots, training code, HTTP, authentication, streaming and the frontend.
