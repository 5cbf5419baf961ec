# Sentraxis in Dafny

Sentraxis is an event pipeline: a replay injector feeds a Redis stream, normalizers store the events, streaming
detectors watch each entity, detections are clustered into incidents, and incidents lead to gated response actions
whose every move is recorded in a hash-chained ledger. This project models that pipeline in Dafny and proves what
it claims about every run.

Where the program changes state step by step the model has a class or method with the same steps, proved equal to
a specification function; the theorems are about those functions, and about all runs of them.

| files | part |
|---|---|
| `DetectorBase`, `BucketHistory`, `RateDeviation`, `PortVelocity` | tumbling buckets, Welford statistics, the two detectors and the declarative reading that they refine |
| `DetectionWorker`, `DetectionRuns`, `CommittedReports`, `DetectorFaults`, `StorableReports` | batches, saved state, the cursor, all runs of them, what the table then holds bucket by bucket, detectors that raise, and reports that the table cannot hold |
| `CorrelationRules`, `Correlator`, `IncidentEvidence` | clustering, incidents, the watermarked cursor, and what every incident of a run is about |
| `Audit` | the hash chain |
| `ResponseActions`, `ResponseRuns`, `ResponseTicks`, `ResponseEffects` | the action state machine, the decision endpoint, all runs of them, and what a tick and a request do to the tables |
| `Injector`, `InjectorRuns`, `Repository`, `Normalizer`, `Ingestion` | the ingestion protocol end to end |
| `Reservoir`, `PrepareCicids` | dataset sampling |
| `LlmGateway`, `ChatOutcomes`, `CorrelationAgent`, `AnalysisOutcomes` | the cached, budgeted fallback chain, the repair loop over it, and how chats and analyses end |

What the outside world decides is a parameter: clocks, arrival orders, the moments of crashes and aborted
transactions, lost answers, failing commands, random draws, providers' replies, the policy's verdict, and what other
consumers do in between. A database transaction is one atomic step. Timestamps are integer microseconds from the
epoch on, statistics are exact reals, and one window and configuration is fixed for each run.

Places where the code and its own documentation differ. The model follows the code:

- `src/app/workers/injector.py:4-6` promises that a broken scenario never partially executes. Whole chunks before
  the bad line are sent; `InjectorRuns.BrokenScenarioSendsNothingIff` gives the exact condition.
- `src/app/orchestration/audit.py:3-5` promises that any mutation of a row is detected. The reference columns are
  not hashed, and the columns are joined without escaping, so that text can move across a separator
  (`Audit.ReferenceRewriteUnnoticed`, `Audit.MovedBarUnnoticed`); `Audit.RewriteDetectedIff` gives the exact condition.
- `docs/decisions/ADR-006-llm-contracts.md:23` and `src/app/llm/gateway.py:11-12` describe repair rounds that bust
  the cache. The key to bust never matches (`CorrelationAgent.RepairNeverBusts`), so a repeated analysis gets its
  old repair answer.
- `scripts/prepare_cicids.py:225` calls the budget global. It applies to each file
  (`PrepareCicids.BudgetIsGlobalIff`, `PrepareCicids.BudgetIsNotGlobal`).
- `scripts/prepare_cicids.py:123` calls the sampling order-independent. The reservoir is fair, but the later trim to
  its first slots is not, unless it takes all of them (`Reservoir.TrimIsFairIff`). A benign label with padding is
  sampled as benign and written as an attack (`PrepareCicids.ClassIsKeptIff`).
- `src/app/workers/correlator.py:101-106` holds recent detections back, but the cursor can pass a held-back lower id
  (`Correlator.AccountedUnlessSkipped`, `Correlator.WatermarkCanSkip`).
- `src/app/workers/detector.py:115` promises that one bad detector does not stall the stream, which holds for a detector
  that raises (`DetectorFaults.FaultsAreIsolated`). A report against a history without variance carries an infinite
  z-score, which JSON (section 6 of RFC 8259) and so the details column cannot hold; its insert is outside the guard.
  Such a batch never commits, and the cursor stays before it (`StorableReports.CursorStops`).
- `src/app/workers/normalizer.py:6-7` dead-letters and acknowledges malformed payloads in a pipeline that is not a
  transaction: a refused dead letter loses its message (`Normalizer.AckIsSafe`, `Normalizer.RefusedLetterLosesMessage`).
- The settings do not keep the z-score cap at or above the trigger (`DetectorBase.ScoreRange`).

## Model

| member | source | states |
|---|---|---|
| `DetectorBase.BucketStartIsSlotStart` | src/app/detectors/base.py:63-68 | a bucket start is the start of the window-sized slot that holds the timestamp |
| `DetectorBase.WelfordIsBatchStatistics` | src/app/detectors/base.py:71-77 | n times mean is the sum of the values fed in and m2 the sum of squared deviations from the mean, so m2 is never negative |
| `DetectorBase.WelfordOrderIndependent` | src/app/detectors/base.py:71-77 | the running statistics of a permutation of the values are the same |
| `DetectorBase.GapClosedForm` | src/app/detectors/base.py:131-138 | rolling over k empty buckets gives mean*n/(n+k) and m2 + mean^2*n*k/(n+k) |
| `DetectorBase.ScoreRange` | src/app/detectors/base.py:88-96 | a triggered score lies in [0.4, 1] if and only if the cap is not below the trigger, which nothing enforces |
| `DetectorBase.ScoreMonotone` | src/app/detectors/base.py:88-113 | a larger deviation is never dropped, scored lower or given a lower severity |
| `DetectorBase.ScoreIsLinear` | src/app/detectors/base.py:88-96 | with a cap above the trigger a score lies on the line from 0.4 at the trigger to 1 at the cap and is 1 beyond it and for an infinite z-score; nothing below the trigger is scored |
| `DetectorBase.SeveritySteps` | src/app/detectors/base.py:106-113 | severities are medium from 0.5, high from 0.7 and critical from 0.85, for both scores |
| `DetectorBase.SurprisingIsTriggered` | src/app/detectors/base.py:80-96 | for the standard deviation of a variance the square-root-free test triggers exactly when the z-score test does, zero-variance branch included |
| `DetectorBase.PortScoreRange` | src/app/detectors/base.py:99-113 | above the threshold the port score is in (0.5, 1], at least medium, and 1 exactly from twice the threshold |
| `DetectorBase.PortScoreIsLinear` | src/app/detectors/base.py:99-113 | up to twice the threshold the port score is half the ratio of the ports to the threshold, and 1 from there on |
| `DetectorBase.RollReaches` | src/app/detectors/base.py:124-139 | rolling from slot k to a timestamp ends in the timestamp's slot, with the live value and one zero for each further bucket appended to the history |
| `DetectorBase.MetricState.RollBuckets` | src/app/detectors/base.py:116-139 | the loop computes that roll and returns the finalized values |
| `BucketHistory.CountsAddUp` | src/app/detectors/rate_deviation.py:102-111 | the counts of the buckets from the first to the live one add up to the number of accepted events |
| `BucketHistory.HistorySettled` | src/app/detectors/rate_deviation.py:104-109 | an accepted event does not change the count of any bucket already left behind; a late event changes none |
| `RateDeviation.Observe` | src/app/detectors/rate_deviation.py:102-142 | one event: late filter, roll, count, test, fire once |
| `RateDeviation.StepRefines` | src/app/detectors/rate_deviation.py:99-142 | after any events the state is what the event sequence says (live bucket, its count, the statistics of all earlier buckets, the fired flag), and one more event reports exactly what the declarative reading expects |
| `RateDeviation.OncePerBucket` | src/app/detectors/rate_deviation.py:113-142 | each bucket is reported exactly once, at its least count that passes the z-test against the history of all earlier buckets, or not at all |
| `RateDeviation.BucketsIncrease` | src/app/detectors/rate_deviation.py:104-142 | the reported buckets of an entity strictly increase |
| `PortVelocity.Observe` | src/app/detectors/port_velocity.py:85-124 | one event: late filter, roll, add the port, compare, fire once |
| `PortVelocity.StepRefines` | src/app/detectors/port_velocity.py:81-125 | the live port set is exactly the distinct ports of the accepted events of the bucket, and each event reports exactly what is expected |
| `PortVelocity.OncePerBucket` | src/app/detectors/port_velocity.py:93-124 | a bucket is reported if and only if it ever holds more than threshold distinct ports, then once, with exactly threshold + 1 of them |
| `PortVelocity.BucketsIncrease` | src/app/detectors/port_velocity.py:86-124 | the reported buckets of an entity strictly increase |
| `PortVelocity.ShownAreLowest` | src/app/detectors/port_velocity.py:101-121 | a report lists its ports in ascending order, at most 32 of them, and none that it leaves out is lower than a listed one |
| `DetectionWorker.FoldEntity` | src/app/detectors/rate_deviation.py:99-143 | loads an entity's state, folds its events and saves the state: the detections and the saved row are those of one run over the events |
| `DetectionWorker.Process` | src/app/detectors/rate_deviation.py:91-147 | groups a batch by source entity and folds the groups in entity order, up to the entity at which it raises if it does |
| `DetectionWorker.RecordDetections` | src/app/workers/detector.py:39-64 | inserts with conflict-do-nothing on (event, detector, version) and counts both outcomes |
| `DetectionWorker.RecordIs` | src/app/workers/detector.py:39-64 | a row is skipped exactly when one with its event, detector and version is there |
| `DetectionWorker.DetectionWorker.Tick` | src/app/workers/detector.py:103-133 | one batch in one transaction: metrics, detections and cursor move together or not at all; a detector that raises loses what it found in the batch, keeps what it saved, and does not stop the others |
| `DetectionWorker.RunAppend` | src/app/detectors/rate_deviation.py:53-87 | running over two batches with a save and a load in between equals running over their concatenation |
| `DetectionWorker.StreamingRefines` | src/app/detectors/rate_deviation.py:91-147 | a detector's run from a new state reports the declarative list of detections and ends in a state that the event sequence describes |
| `DetectionWorker.BySourceIs` | src/app/detectors/rate_deviation.py:95-97 | grouping a batch keeps exactly the events of the entity, in order |
| `DetectionWorker.EventsConserved` | src/app/detectors/rate_deviation.py:110-111 | n*mean plus the live value is the number of non-late events |
| `DetectionRuns.EveryRunIsOneFold` | src/app/workers/detector.py:103-123 | for any arrivals, batching and entity interleaving, the committed states and the multiset of detections equal one fold of each detector over the events at or below the cursor |
| `DetectionRuns.TickConsumes` | src/app/workers/detector.py:103-123 | in every run a committed tick consumes the next events, as many as the batch allows, and moves the cursor to the last of them |
| `DetectionRuns.NoConflicts` | src/app/workers/detector.py:57-64 | in every such run the conflict branch of the insert is never taken: every emitted detection is inserted |
| `DetectionRuns.CommittedRowsAreExpected` | src/app/workers/detector.py:103-123 | the committed rows are, entity by entity, exactly the declaratively expected detections of the consumed events |
| `CommittedReports.OwnRowsAreExpected` | src/app/workers/detector.py:103-123 | after any run the committed rows of each detector for each entity are, in table order, the detections that the entity's consumed events deserve |
| `CommittedReports.RateBucketsCommitted` | src/app/detectors/rate_deviation.py:113-142 | after any run the table holds for each bucket of each entity exactly its one rate report, at the least unusual count against the history of all earlier buckets, or none |
| `CommittedReports.PortBucketsCommitted` | src/app/detectors/port_velocity.py:93-124 | after any run the table holds for each bucket of each entity exactly one sweep report, of threshold + 1 ports, if the bucket ever held more than threshold distinct ports, and none otherwise |
| `CommittedReports.CommittedBucketsIncrease` | src/app/workers/detector.py:103-123 | after any run the committed buckets of a detector for an entity strictly increase |
| `DetectorFaults.FaultsAreIsolated` | src/app/workers/detector.py:103-123 | in every run, whatever the others do, a detector that never raises ends with the states and the rows of the run in which none raises, and the cursor is the same |
| `DetectorFaults.SparedRowsAreExpected` | src/app/workers/detector.py:103-123 | so its committed rows are, entity by entity and in order, the detections that the consumed events deserve |
| `DetectorFaults.RaisingSavesTheLowest` | src/app/workers/detector.py:103-123 | a detector that raises behind k entities of a batch has saved the new states of the k lowest entities, keeps the old ones of the others, and adds no row |
| `StorableReports.InfiniteIff` | src/app/detectors/base.py:80-85 | the z-score of a firing is infinite exactly when the standard deviation of the history is at most 1e-9 |
| `StorableReports.TickStorableIff` | src/app/workers/detector.py:103-123 | after any run the next batch reports only finite z-scores if and only if none of its events deserves a report with an infinite one, whatever the batching |
| `StorableReports.CursorStops` | src/app/workers/detector.py:103-123 | in every run in which a batch with an infinite z-score never commits, the cursor stays before the first event that deserves such a report, for all entities |
| `StorableReports.SticksIff` | src/app/detectors/rate_deviation.py:113-142 | an accepted event deserves such a report if and only if it brings its bucket to the least unusual count while the history of all earlier buckets has a variance of at most 1e-18 |
| `StorableReports.SteadySourceSticks` | src/app/detectors/rate_deviation.py:113-142 | which is so for the first event beyond x in a bucket after enough buckets of exactly x events each |
| `StorableReports.PortsNeverStick` | src/app/detectors/port_velocity.py:93-124 | a sweep report never is such a report |
| `CorrelationRules.ClusterByEntityAndTime` | src/app/correlation/rules.py:44-66 | the sort, group and gap-split loops compute the specified clusters |
| `CorrelationRules.ClustersAreRuns` | src/app/correlation/rules.py:52-66 | grouping by entity and splitting each group equals one pass over the sorted facts |
| `CorrelationRules.ClustersAreComponents` | src/app/correlation/rules.py:47-66 | two facts share a cluster if and only if a chain of same-entity facts, each within the window of the next, joins them |
| `CorrelationRules.ClustersPartition` | src/app/correlation/rules.py:55-66 | the clusters are non-empty, disjoint, and hold each fact once |
| `CorrelationRules.ClustersIgnoreOrder` | src/app/correlation/rules.py:49-53 | every permutation of the facts gives the same clusters |
| `CorrelationRules.WiderWindowMerges` | src/app/correlation/rules.py:56-63 | facts that share a cluster share one under every wider window |
| `CorrelationRules.SeparateBatchesCompose` | src/app/correlation/rules.py:44-66 | clustering two batches apart gives the clusters of the union when each entity's times in them are more than a window apart |
| `CorrelationRules.UnionClusters` | src/app/correlation/rules.py:44-66 | a cluster of the union of two such batches is a cluster of exactly one of them, and every cluster of each is one of the union |
| `IncidentEvidence.DraftNamesEntity` | src/app/correlation/rules.py:84-86 | a draft names the entity that all its detections share |
| `CorrelationRules.DraftSummarizes` | src/app/correlation/rules.py:71-93 | a draft's first and last times are those of members and bound every member's; its risk is one member's score plus 0.15 for each further detector, at most 1, and no member scores higher; its detectors are exactly those of its members |
| `CorrelationRules.DraftLinks` | src/app/correlation/rules.py:90-92 | a draft lists exactly its cluster's detection ids, in ascending order, and counts them |
| `Correlator.CorrelationWorker.Tick` | src/app/workers/correlator.py:108-146 | one tick is the transaction TickDb; IncidentEvidence says of TickDb what it reads, puts together, links and moves |
| `IncidentEvidence.TickReads` | src/app/workers/correlator.py:101-106 | in every run a tick reads a detection exactly when its id is above the cursor, it is forced or the event is at least a window old, and fewer than the limit of such detections come before it |
| `IncidentEvidence.TickPutsTogether` | src/app/workers/correlator.py:108-139 | two detections that a tick reads end in one incident exactly when a chain of reads of their entity with gaps of at most the window joins them |
| `IncidentEvidence.ClusterIsInOrder` | src/app/correlation/rules.py:49-66 | the members of a cluster are of one entity and stand in time order, those of one moment by their ids |
| `IncidentEvidence.TickMoves` | src/app/workers/correlator.py:108-146 | a tick links exactly what it reads, keeps earlier incidents, and moves the cursor to the last detection it read |
| `IncidentEvidence.EveryIncidentIsEvidenced` | src/app/workers/correlator.py:119-139 | in every run an incident is about detections in the table: it names their entity, spans exactly their times, counts, lists and links them once each, and its risk is that of their scores and detectors |
| `IncidentEvidence.LinksAreOfTheEntity` | src/app/workers/correlator.py:119-139 | in every run each id that an incident links is the id of a detection in the table whose entity is the incident's |
| `Correlator.FetchIsPrefix` | src/app/workers/correlator.py:101-106 | a fetch reads exactly the released detections between the cursor and its largest id |
| `Correlator.FetchIsDue` | src/app/workers/correlator.py:101-106 | over the table before the tick: a fetch reads exactly the released detections above the cursor with fewer than the limit of such detections before them |
| `Correlator.TwoTicksCompose` | src/app/workers/correlator.py:108-139 | two successive ticks whose batches lie, entity by entity, more than a window apart create the incidents that the clusters of both batches together give |
| `Correlator.EveryRunIsWellLinked` | src/app/workers/correlator.py:108-168 | over any run a detection is linked at most once, every count equals the incident's links, and links stay at or below the cursor |
| `Correlator.AccountedUnlessSkipped` | src/app/workers/correlator.py:101-139 | every detection at or below the cursor is linked if and only if at no tick of the run a detection above the cursor was held back below one of the first released ones within the limit |
| `Correlator.ForcedRunsAccountForAll` | src/app/workers/correlator.py:103-139 | when every tick of a run is forced, every detection at or below the cursor is linked exactly once |
| `Correlator.OrderedRunsAccountForAll` | src/app/workers/correlator.py:103-139 | when event time does not decrease with the detection id, every detection at or below the cursor is linked exactly once |
| `Correlator.WatermarkCanSkip` | src/app/workers/correlator.py:103-139 | a run with a recent detection of lower id in which the cursor does pass it |
| `Audit.VerifyChain` | src/app/orchestration/audit.py:78-100 | the walk returns all rows and no bad sequence number exactly for an intact log, and otherwise the first row that does not link |
| `Audit.IntactIff` | src/app/orchestration/audit.py:78-100 | a log verifies exactly when each row names the hash of the row before it, the first one 64 zeros, and carries the digest of that hash and its own columns joined by bars |
| `Audit.AppendsOneRow` | src/app/orchestration/audit.py:33-70 | an append adds one row: the columns as given, actor and event type cut to 96 and 48 characters, the hash of the row before or 64 zeros, and the digest of these |
| `Audit.AppendKeepsIntact` | src/app/orchestration/audit.py:33-70 | appending to a log that verifies gives a log that verifies |
| `Audit.ChainBinds` | src/app/orchestration/audit.py:26-30 | two verified logs with the same last hash agree in length and, row by row, in the hashed text, unless their rows exhibit a digest collision or a preimage of the genesis value |
| `Audit.ChainBindsColumns` | src/app/orchestration/audit.py:26-30 | where no separator stands inside a column such logs agree in every hashed column |
| `Audit.RewriteDetectedIff` | src/app/orchestration/audit.py:26-30 | a rewritten log (hash columns kept, no collision) still verifies if and only if no row's hashed text changed |
| `Audit.SameTextIff` | src/app/orchestration/audit.py:26-30 | without separators inside the columns the hashed texts agree exactly when the hashed columns do |
| `Audit.ReferenceRewriteUnnoticed` | src/app/orchestration/audit.py:26-30 | rewriting ref_type or ref_id of any row of a verified log leaves a log that verifies |
| `Audit.MovedBarUnnoticed` | src/app/orchestration/audit.py:26-30 | when an actor holds a separator, moving the text behind it into the event type leaves a log that verifies |
| `Audit.MovedBarExample` | src/app/orchestration/audit.py:26-30 | such a log: an entry of a user whose address holds a separator, rewritten to a shorter address |
| `Audit.EditStopsThere` | src/app/orchestration/audit.py:88-97 | an edit that changes row k's hashed text without a collision stops verification at exactly row k |
| `Audit.RemovalStopsThere` | src/app/orchestration/audit.py:81-97 | removing a row that is not the last stops verification at exactly its position |
| `Audit.TailCutUnnoticed` | src/app/orchestration/audit.py:81-83 | cutting the tail leaves a log that verifies |
| `ResponseActions.ResponseOrchestrator.Transition` | src/app/workers/orchestrator.py:144-170 | a transition the table allows changes the row and appends its ledger entry; any other leaves everything untouched |
| `ResponseRuns.MoveAllowedIff` | src/app/workers/orchestrator.py:49-54 | a transition is made exactly along one of the nine edges of the table |
| `ResponseActions.ResponseOrchestrator.RunAction` | src/app/workers/orchestrator.py:327-364 | queued to executing to executed or failed through the registered effector |
| `ResponseActions.ResponseOrchestrator.Tick` | src/app/workers/orchestrator.py:190-227 | one tick is the transaction TickDb; ResponseEffects says of TickDb what it expires, reads, creates, executes and moves |
| `ResponseActions.ResponseOrchestrator.Decide` | src/app/workers/orchestrator.py:368-407 | the ruling on one action, or the error that leaves the tables untouched |
| `ResponseActions.ActionsApi.Decide` | src/app/api/actions.py:85-138 | the decision endpoint: not found, replay of a recorded key, conflict, or a committed ruling under the key |
| `ResponseTicks.ExecutionOutcome` | src/app/workers/orchestrator.py:327-437 | an execution ends as executed exactly when the effector exists, does not raise and finds its entity; nothing but this action changes, and its entity exactly when the effector got to set it; the ledger records the start and the result, which names a missing effector |
| `ResponseTicks.LateRaiseLeavesStatus` | src/app/workers/orchestrator.py:345-364 | an effector that raises after setting the status leaves a changed entity behind a failed action |
| `ResponseTicks.RulingOutcome` | src/app/workers/orchestrator.py:378-407 | a ruling records approver, reason and time in the action and in the first new ledger entry, and changes no other action |
| `ResponseTicks.ServedIff` | src/app/api/actions.py:97-138 | the endpoint decides exactly when the action exists, is pending, and the key is new and fits its column; otherwise it changes nothing; not-found means exactly a missing action |
| `ResponseEffects.EveryRequest` | src/app/api/actions.py:97-138 | every request to the endpoint by what it finds: a missing action, a recorded key, an action or a word that cannot be decided, or a decision, and only a decision changes anything |
| `ResponseEffects.GrantedRequest` | src/app/api/actions.py:110-138 | a granted request decides its action, with approver, the first 300 characters of the reason, time and key, logs the ruling first, and sets the entity's status exactly when it approves a quarantine or a block of an entity that is there |
| `ResponseEffects.TickExpires` | src/app/workers/orchestrator.py:190-249 | a tick marks each pending action created before its cutoff as expired at the transaction's time, and changes no other earlier action |
| `ResponseEffects.TickActs` | src/app/workers/orchestrator.py:190-227 | in every run a tick reads the incidents behind the cursor, as many as the batch allows, and creates one action for each entry of the policy on those without actions: high-blast ones wait, low-blast ones have run, each created at the transaction's time, on its incident's entity, announced in the ledger, with exactly their effects on the entities |
| `ResponseTicks.ExpiresExactlyTheOverdue` | src/app/workers/orchestrator.py:229-249 | the expiry step marks exactly the pending actions created before the cutoff |
| `ResponseTicks.TickAnswers` | src/app/workers/orchestrator.py:203-217 | in every run a tick gives each incident it reads, if that has no action yet, one action for each spec in the policy's order |
| `ResponseTicks.EvaluatedOnce` | src/app/workers/orchestrator.py:194-219 | over every run the ticks evaluate each incident that the cursor has passed exactly once, in order, and nothing else |
| `ResponseRuns.LedgerIsGroundTruth` | src/app/workers/orchestrator.py:144-170 | in every committed state the ledger entries of each action start with its creation in its initial state, follow the transition table edge by edge, and end in its current state; its attempt counter is the number of executing entries |
| `ResponseRuns.LedgerVerifies` | src/app/workers/orchestrator.py:163-170 | the ledger of every run verifies from end to end |
| `ResponseEffects.StepIsStamped` | src/app/workers/orchestrator.py:144-170 | each step only adds ledger entries, with its own time, numbered on |
| `ResponseEffects.LedgerIsNumbered` | src/app/workers/orchestrator.py:163-170 | in every run the ledger is numbered from 1 without gaps |
| `ResponseRuns.LivesAreBounded` | src/app/workers/orchestrator.py:327-407 | no committed action is queued, executing or dead; each has lived one of seven complete lives and was started at most once, although the table has a cycle |
| `ResponseRuns.ApprovalComesFirst` | src/app/workers/orchestrator.py:378-395 | a high-blast action is started only after a ledger entry in which a user queued it |
| `ResponseRuns.StatusIsAccountedFor` | src/app/workers/orchestrator.py:413-443 | with the default effectors every entity that is not active is quarantined or blocked and has an executed quarantine_host or block_ip action on it behind that, approved first when its blast is high |
| `ResponseRuns.StatusChangesNeedExecution` | src/app/workers/orchestrator.py:345-443 | in every run a step changes an entity's status only together with an action on that entity coming to be executed, or to fail because its effector raised after setting the status |
| `ResponseRuns.FailuresLackAnEffector` | src/app/workers/orchestrator.py:335-364 | with the default effectors only an action that is neither quarantine_host nor block_ip ends as failed |
| `ResponseRuns.OneActionPerPlaybook` | src/app/workers/orchestrator.py:204-213 | no incident has two actions of one playbook |
| `ResponseRuns.KeysAreUnique` | src/app/api/actions.py:97-126 | no two actions share an idempotency key and a pending action has none |
| `ResponseRuns.KeyedDecisionHappensOnce` | src/app/api/actions.py:97-132 | after one successful keyed decision, whatever follows, each request with that key on an existing action changes nothing and returns the recorded outcome |
| `ResponseRuns.RunKeeps` | src/app/workers/orchestrator.py:190-407 | from any committed state every run keeps the invariant, freezes finished actions and only extends the ledger |
| `Injector.ReplayInjector.Run` | src/app/workers/injector.py:86-146 | the run, with its inner flush and any crash, writes exactly the stated prefix of the stated script; its outcome names the first bad line in front of its end, or counts the lines it skipped and sent, and only a connection of fewer than 2n + 2 writes makes it crash |
| `Injector.ReplayInjector.Flush` | src/app/workers/injector.py:104-118 | one pipeline of sends, then the checkpoint behind them |
| `InjectorRuns.NothingIsSkipped` | src/app/workers/injector.py:100-136 | over any replays with limits, resets, bad lines and crashes: each entry is a scenario line at most one past the largest before it, and every line below the checkpoint has been sent |
| `InjectorRuns.FewRepeats` | src/app/workers/injector.py:104-118 | without resets the stream holds at most the checkpointed lines plus one chunk for each crash |
| `InjectorRuns.BlankLinesAreDropped` | src/app/workers/injector.py:56-67 | loading drops the blank lines and keeps the others in order |
| `InjectorRuns.WholeReplay` | src/app/workers/injector.py:86-146 | an uncut run appends to the stream exactly the lines from the checkpoint, or from 0 after a reset, to its limit, or only whole chunks of 500 before a bad line, and leaves the checkpoint behind exactly what it sent |
| `InjectorRuns.BrokenScenarioSendsNothingIff` | src/app/workers/injector.py:120-132 | a run that meets a bad line has sent nothing if and only if that line lies in the first chunk after the start |
| `InjectorRuns.BrokenScenarioPartlySent` | src/app/workers/injector.py:120-132 | a scenario with a bad line behind a whole chunk: the chunk is sent although the run fails |
| `InjectorRuns.CompletedSendsAll` | src/app/workers/injector.py:133-136 | once some replay has completed every line of the scenario has been sent, whatever came before and after |
| `Repository.ExtractEntityRefs` | src/app/persistence/repository.py:33-39 | the loop lists the references of a batch |
| `Repository.RefsAreMentions` | src/app/persistence/repository.py:33-39 | exactly the mentioned entities, each once |
| `Repository.UniqueRefsProperties` | src/app/persistence/repository.py:42-52 | the references that a batch upserts are exactly the mentioned entities, each once, in key order |
| `Repository.StringLeIs` | src/app/persistence/repository.py:42-52 | that order compares at the first difference |
| `Repository.UpsertProperties` | src/app/persistence/repository.py:46-62 | upserting adds the missing entities under fresh ids, keeps every id, and never moves last_seen back |
| `Repository.UpsertIs` | src/app/persistence/repository.py:46-62 | upserting touches exactly the given references: an old one keeps its id and gets the later time, a new one gets the time of the batch |
| `Repository.NewIdsFollowOrder` | src/app/persistence/repository.py:46-62 | new entities are numbered on in the order of the references |
| `Repository.InsertEventsBatch` | src/app/persistence/repository.py:65-105 | inserts with conflict-do-nothing, inside the batch too, and counts both outcomes |
| `Repository.PersistBatch` | src/app/persistence/repository.py:112-126 | entities and events in one transaction |
| `Repository.PersistProperties` | src/app/persistence/repository.py:112-126 | earlier rows stay, every event of the batch has its row, each new row refers to the ids of the entities its event mentions, and no event id has two rows |
| `Repository.FirstEventIsStored` | src/app/persistence/repository.py:65-105 | of the events of one new id in a batch the first is stored |
| `Repository.PersistTwice` | src/app/persistence/repository.py:65-105 | delivering a batch again leaves the event table as it was |
| `Normalizer.StepSound` | src/app/workers/normalizer.py:75-206 | each atomic step of any consumer keeps the invariant and takes nothing back |
| `Normalizer.AckIsSafe` | src/app/workers/normalizer.py:75-206 | in every reachable state an acknowledged message has its event in the table or a dead letter naming it, unless the server refused that dead letter; an unacknowledged one is undelivered or pending, no event id has two rows, and the table size is the sum of the inserted counts |
| `Normalizer.AckIsSafeUnrefused` | src/app/workers/normalizer.py:75-206 | while no dead letter is refused every acknowledged message is in the table or named by one |
| `Normalizer.RefusedLetterLosesMessage` | src/app/workers/normalizer.py:196-206 | a run in which a dead letter is refused and the acknowledgement behind it in the pipeline executed: the message is lost |
| `Normalizer.Consumer.ProcessBatch` | src/app/workers/normalizer.py:75-111 | under any interference and any failing command or transaction the batch takes only steps that keep acknowledgement safe; when it ends normally every collected message is acknowledged and the counters add up. Undisturbed, the batch is the idle candidates in order and then the next undelivered messages, both as far as the batch size allows, it ends normally, and each of its messages has its event in the table or a dead letter |
| `Normalizer.IdleOnesAre` | src/app/workers/normalizer.py:113-145 | the idle candidates of a batch are pending ones, none twice, all of them when they fit, and the first ones when they do not |
| `Normalizer.Consumer.PersistAndAck` | src/app/workers/normalizer.py:147-180 | at most three transactions for the whole batch; deferral means that all three failed. Undisturbed, up to two lost transactions are made good by the next, which stores and acknowledges the whole batch; and when the database refuses events, after any such losses, exactly those are dead-lettered and all others stored |
| `Normalizer.Consumer.PersistPerEvent` | src/app/workers/normalizer.py:182-194 | each event gets its own transaction and is acknowledged or dead-lettered; undisturbed, exactly the events that the database refuses are dead-lettered and counted as errors, and all others stored |
| `Normalizer.Consumer.DeadLetterMessage` | src/app/workers/normalizer.py:196-206 | one pipeline of a dead letter and an acknowledgement, the second executed even when the first is refused; when the call returns normally the dead letter is written and the message acknowledged |
| `Ingestion.RowsComeFromMessages` | src/app/workers/normalizer.py:147-194 | every row holds the columns of some stream message with its entities resolved |
| `Ingestion.ExactlyOnce` | src/app/workers/injector.py:7-12 | across injector and consumer crashes, repeats, resets and reclaims: once a replay has completed and every message is acknowledged, none as a dead letter written or refused, the table has exactly one row for each event id of the scenario, with the columns of one of its lines |
| `Reservoir.KeepsDistinctRows` | scripts/prepare_cicids.py:114-140 | at every step the reservoir holds min(seen, K) distinct row positions |
| `Reservoir.EveryRowIsFair` | scripts/prepare_cicids.py:114-140 | every row is kept under the same share, K in n, of all possible draw sequences |
| `Reservoir.SlotShare` | scripts/prepare_cicids.py:114-140 | the exact share under which a row ends in the first m slots: K in n for i < m, none for m <= i < K, m in n for later rows |
| `Reservoir.TrimIsFairIff` | scripts/prepare_cicids.py:225-229 | taking the first m slots of a reservoir that has overflowed treats all rows alike if and only if m is the whole reservoir; PrepareCicids.TrimTakesFirstSlots ties the slots to the trimmed list |
| `Reservoir.TrimNeverKeeps` | scripts/prepare_cicids.py:225-229 | a row that filled a slot behind the first m is never among the first m |
| `PrepareCicids.TrimTakesFirstSlots` | scripts/prepare_cicids.py:225-229 | the trimmed list of a file starts with the rows in the first slots of its attack reservoir, in slot order |
| `PrepareCicids.TrimTakesTheFirst` | scripts/prepare_cicids.py:225-229 | an attack is taken exactly when fewer attacks than six tenths of the budget stand before it, a benign row when fewer benign rows than what is left of the budget stand before it; the taken ones keep their order, attacks first |
| `PrepareCicids.EventsAreOfRows` | scripts/prepare_cicids.py:231-240 | each row with a timestamp and both addresses becomes one event of its flow, time and class, in order |
| `PrepareCicids.FilesAreInOrder` | scripts/prepare_cicids.py:209-240 | files are taken in order and each is trimmed by itself |
| `PrepareCicids.EventsCount` | scripts/prepare_cicids.py:231-240 | the events of a class are counted by position |
| `PrepareCicids.DefaultBudgetSkipsRows` | scripts/prepare_cicids.py:225-229 | once a file's attack reservoir has overflowed, each of the first 30,000 rows of the trimmed list is an attack row from outside positions 30,000 to 199,999 |
| `Reservoir.SampleIsPositions` | scripts/prepare_cicids.py:114-140 | the sample holds the rows at the kept positions |
| `PrepareCicids.ReadRows` | scripts/prepare_cicids.py:90-162 | each class is a reservoir sample of its usable rows, of 200,000 attacks and 400,000 benign rows at most, under the draws that the shared random source gives; seen, skipped and labelled rows are counted |
| `PrepareCicids.ClassIsInOrder` | scripts/prepare_cicids.py:114-140 | a class holds the rows with its label and a timestamp in their order, the i-th row behind those of the class before it |
| `PrepareCicids.StripCutsSpace` | scripts/prepare_cicids.py:115-117 | stripping a label cuts the white space off both ends and nothing else |
| `PrepareCicids.BenignInAnyCase` | scripts/prepare_cicids.py:124 | a label is benign exactly when it is the six letters in any case |
| `PrepareCicids.BadTimestampsCount` | scripts/prepare_cicids.py:115-121 | the skipped rows are those with a label and no timestamp |
| `PrepareCicids.LabelsCount` | scripts/prepare_cicids.py:115-118 | the rows of a label are counted by position |
| `PrepareCicids.LabelCountsAreExact` | scripts/prepare_cicids.py:108-112 | the label counter lists exactly the labels that occur, each with its number of rows |
| `PrepareCicids.ClassIsKeptIff` | scripts/prepare_cicids.py:115-161 | the class written equals the class sampled if and only if the row was sampled as an attack or its label carries no padding |
| `PrepareCicids.PaddedBenignBecomesAttack` | scripts/prepare_cicids.py:115-161 | such a row: a padded benign label, sampled as benign and written as an attack |
| `PrepareCicids.BudgetIsPerFile` | scripts/prepare_cicids.py:225-229 | the number of events is bounded by the budget times the number of files |
| `PrepareCicids.BudgetIsGlobalIff` | scripts/prepare_cicids.py:225-229 | the budget bounds the whole scenario, whatever the files hold, if and only if there is at most one file or nothing is budgeted |
| `PrepareCicids.BudgetIsNotGlobal` | scripts/prepare_cicids.py:225-229 | two files that together exceed the budget |
| `PrepareCicids.DedupedIsScenario` | scripts/prepare_cicids.py:242-252 | deduplicating a time-sorted list keeps the order, lists each event id once, drops none, and keeps the earliest of each |
| `PrepareCicids.FirstIsWritten` | scripts/prepare_cicids.py:242-252 | of the events of one id the first in the sorted list is written |
| `PrepareCicids.Prepare` | scripts/prepare_cicids.py:209-270 | the written scenario has these properties for all events of all files; attacks, benign events, duplicates, dropped and written rows are counted exactly |
| `LlmGateway.Gateway.ChatJsonCall` | src/app/llm/gateway.py:197-251 | one chat is the transition ChatJson; ChatOutcomes says of ChatJson which providers are called, how often, and how the chat ends |
| `LlmGateway.ChatBound` | src/app/llm/gateway.py:235-276 | one chat makes at most three calls for each provider |
| `ChatOutcomes.ExhaustedIff` | src/app/llm/gateway.py:143-149 | with Redis steady or out of use, a chat without a cached answer reports an exhausted budget exactly when every provider's counter of the day has reached the budget, and Redis is in use |
| `ChatOutcomes.ExhaustedMeansSpent` | src/app/llm/gateway.py:143-149 | even if Redis fails on the way, an exhausted budget means that every counter had reached it |
| `ChatOutcomes.ChatPlays` | src/app/llm/gateway.py:234-276 | otherwise the providers with budget left are called in order, the first one first: a retryable reply is followed by another call of the same provider up to three, a handled failure by the next such provider, the first good content is the answer, and only its provider's counter and its cache entry change |
| `LlmGateway.ChatCalls` | src/app/llm/gateway.py:234-251 | an answer from the network is the chat's only successful call, its last, and of the answering provider; an exhausted budget is reported exactly when no provider was called and none remembered |
| `LlmGateway.ChainGoesDown` | src/app/llm/gateway.py:235-276 | providers are tried in the configured order, each with at most three attempts before the next |
| `LlmGateway.ChatKeepsBudget` | src/app/llm/gateway.py:143-164 | counters never pass the budget nor the successful calls, and equal them while Redis has not failed |
| `LlmGateway.ChatRemembers` | src/app/llm/gateway.py:352-368 | a chat forgets no entry except its own when asked to bust it, is then never answered from the cache, and leaves its answer in the cache while Redis is up |
| `LlmGateway.ChatFromCache` | src/app/llm/gateway.py:219-232 | a remembered chat is answered without a call |
| `CorrelationAgent.Agent.AnalyzeIncident` | src/app/correlation/agent.py:146-218 | the two-round loop is the transition Analyze; AnalysisOutcomes says of Analyze what it returns |
| `AnalysisOutcomes.AnalysisEndsAs` | src/app/correlation/agent.py:146-218 | the verdict is ok exactly when the first answer meets every bound of the validator, ok_repaired exactly when it does not and the answer to the repair request does, schema_invalid exactly when neither does, and otherwise the failure of the chat; the analysis is that answer with the reference names |
| `AnalysisOutcomes.ReturnedIsGrounded` | src/app/correlation/agent.py:66-109 | whatever the model answers, a returned analysis cites only known technique ids under their reference names and only the incident's evidence, its risk is within 0.5 of its strongest claim, and all field bounds hold |
| `CorrelationAgent.AnalyzeBound` | src/app/correlation/agent.py:171-209 | an analysis makes at most six calls for each provider and keeps the counters right |
| `CorrelationAgent.CountersAreExact` | src/app/llm/gateway.py:143-164 | over every run of one client a provider's daily counter stays within the budget and equals its successful calls of that day while Redis has not failed |
| `CorrelationAgent.RepairNeverBusts` | src/app/correlation/agent.py:194-206 | the key that the repair round asks to bust is never the key that it looks up |
| `CorrelationAgent.AnalyzeRemembers` | src/app/correlation/agent.py:171-209 | an analysis deletes and changes no cache entry |
| `CorrelationAgent.AnalyzeRepeats` | src/app/correlation/agent.py:167-209 | repeating an analysis that ended ok, ok_repaired or schema_invalid_failed gives the same analysis and verdict with no call, its entries unexpired and Redis up |
| `CorrelationAgent.AcceptedIsGrounded` | src/app/correlation/agent.py:66-109 | an accepted analysis cites only the incident's evidence and known techniques under their reference names, and its risk is within 0.5 of its strongest claim |
| `CorrelationAgent.ValidateTwiceIff` | src/app/correlation/agent.py:74-82 | validating an accepted analysis again changes nothing if and only if its normalized names still fit the name bounds |

## Left out

- RateDeviation.Observe: the report's numeric score, severity and rounded display values, which need a square
  root; a report carries the observed count and the history's statistics instead, the test is the squared form, and
  `DetectorBase.SurprisingIsTriggered`, `DetectorBase.ScoreRange` and `DetectorBase.ScoreMonotone` cover the score.
- DetectionRuns.EveryRunIsOneFold: event ids are taken to become visible in increasing order, and no detector raises;
  `DetectorFaults.FaultsAreIsolated` is about the runs in which some do.
- Normalizer.AckIsSafe: which consumer owns a pending message and the text of a dead letter play no part in the
  claim; trimming or deleting stream entries is not modelled.
- Ingestion.ExactlyOnce: parsing undoes printing by construction, and the scenario file does not change between
  replays.
- Injector.ReplayInjector.Run: a pipeline runs in order up to a crash; a server that refuses one command of a
  pipeline and executes a later one is not modelled, nor is pacing.
- ResponseRuns.StatusChangesNeedExecution: effectors that change other entities than the action's own.
- ResponseActions.ResponseOrchestrator.RunAction: the effector's result payload and the quarantined_until column.
- ResponseActions.ResponseOrchestrator.Transition: `src/app/workers/orchestrator.py:5-6` speaks of compare-and-set
  transitions. The code reads, checks and writes without a row lock, so the theorems are about transactions that run
  one after another.
- ResponseActions.ResponseOrchestrator.Tick: ids are dense, the policy's filter itself is a parameter with one entry
  for each matching playbook, playbooks are not loaded or seeded, and a playbook whose blast radius is neither low nor
  high (the database rejects its actions) is not modelled.
- ResponseRuns.KeyedDecisionHappensOnce: transactions are serial; two overlapping requests with one key are not
  modelled.
- PrepareCicids.Prepare: reading the files, the mapping of flow features, and the rounding of the 60 percent share in
  floating point; labels are ASCII.
- PrepareCicids.ReadRows: the CSV header aliases and the errors for missing columns.
- CorrelationRules.DraftSummarizes: the title, the narrative and the rounding of the risk to four digits.
- Correlator.AccountedUnlessSkipped: detection ids are taken to become visible in increasing order.
- Correlator.CorrelationWorker.Tick: titles, the enrichment that an analysis adds to an incident, and the call ledger.
- LlmGateway.Gateway.ChatJsonCall: pacing, cooldown and backoff times, token counts, and a day change inside one call.
- CorrelationAgent.Agent.AnalyzeIncident: the provider, token counts, latency and error detail that an analysis returns.
- CorrelationAgent.AnalyzeRepeats: prompt texts and error messages are parameters.
- Concurrent database transactions, SQL, and the sessions' identity maps.
- SHA-256, JSON canonicalisation and ISO formatting: parameters, with the collisions that a theorem needs named in it.
- Floating-point rounding.
- HTTP routing, authentication, roles, metrics, health checks, log redaction and settings: single-branch checks or
  library wrappers.
- Evaluation, benchmark and report scripts, migrations and the ATT&CK data: counts, formatting or fixed tables.
