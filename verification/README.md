# Verification of the evaluation platform's evidence logic

A model, in Dafny 4.11, of the parts of `platform/` that decide what an evaluation run's stored evidence means, with
proofs about them. `dafny verify dfyconfig.toml` checks everything.

The model follows the source component by component.

- `Bounded`, `Ordering`, `Codec`: Go's `uint64` as a bounded integer with explicit overflow outcomes, byte order on
  strings, canonical decimal text and the zero-padded sequence key.
- `Graph`, `Counting`: recorded parentage, cycle detection, reachability and the fold of added behaviors (ADR 0052),
  beside the occurrence-level rule it summarises.
- `Operational`, `Fidelity`, `BehaviorOperational`, `BucketExactness`, `SummaryExactness`, `EvidenceColumns`: the bounded
  counters a record is folded into, their addition, the checks made when they are read back and how exact those are, and
  their column text.
- `Aggregate`, `Collector`, `Evidence`, `Conservation`: the run aggregate and the behavior collector, advanced together by
  one record, the snapshot validator, and the sums over a run's behaviors.
- `Runs`, `Retention`, `Ingest`: the run life cycle, the retained observation history with its paging loop, and the store's
  transactions on one run as methods of a class, each equal to a function of the rows before it.
- `Protocol`, `ProtocolSafety`, `ProtocolRuns`, `ControlPlane`, `RunEvidence`: record ingest as a transition system. Any
  number of clients read the run, the cursor row and five evidence statements separately, fold a record and commit,
  interleaved with life-cycle writes. A request log, and a mark on each statement saying how many requests had been
  accepted when it ran, carry the history; no step reads them. `ControlPlane` has the sequential method and shows that it
  is one undisturbed run of those statements.
- `TornReads`, `Replies`, `Scenarios`, `FreshRuns`: what a client makes of statements that ran at different moments, exactly;
  every reply of the protocol as a function of a client's stage and those moments; and runs in which a healthy store
  answers other than its comments promise, from any state that admits them and from nothing.
- `Acceptance`, `Tallies`: exactly which records are accepted, and what the evidence then counts of them, counter by counter.
- `Diff`, `DiffProperties`, `DiffMeaning`, `Gate`, `GateOnRuns`: snapshot comparison, the fold applied to it, and the
  acceptance gate, down to the requests its numbers count.
- `Cost`, `Frequency`, `FrequencyGate`: pricing from 64-bit limbs, per-run call statistics and the checks that read them.

How the ingest proof works: a client trusts nothing it read. Its invariant says only that each of its statements returned
what was stored when it ran. Every accepted record moves the cursor up, so a commit that finds the cursor unchanged proves
that the evidence read in between was current, although five statements read it. The stale-evidence guard in the
transaction is not used: it is shown never to fire.

Transactions are read as PostgreSQL runs them. `withTx` uses the default READ COMMITTED level, so the cursor row, the
presence of the two evidence rows, the aggregate, the snapshot header and its entries may each come from a different
moment. Commits and life-cycle writes hold the run's row lock and are atomic. The runs of a single-connection SQLite store
are among those modelled.

Where the code and its own comments disagree, the model follows the code:

- `platform/controlplane.go:1057-1061` says that of concurrent identical submissions all but one replay. A client whose record
  the log already holds at its sequence is answered with success if and only if (`Replies.TwinReplaysIff`, over every
  execution) one of two things holds when it is answered. Still deciding whether to admit its request, it has read a cursor
  row that stands behind the request, exactly where the aggregate it read does, and evidence that passes. Or it has prepared
  its commit and finds the cursor exactly one past its sequence and the stored evidence readable; it need not have read a
  cursor row. Everywhere else it is refused: as it arrives, if the run is no longer running; and once admitted, if what it
  reads does not pass or its record does not fold into it. Which refusal it is given is exact too
  (`Replies.EveryReplyOfRuns`). The following happen from every state that admits them, and to a new run (`FreshRuns`):
  - a cursor row one commit too old, whatever the sequence, is called corruption (`Scenarios.RetryFindsStoreCorrupt`), and so
    are the two evidence rows looked for on either side of the first record (`Scenarios.RetryFindsHalfAPair`);
  - no cursor row before evidence of the record is called other content (`Scenarios.RetryFindsOtherContent`);
  - a record folded onto itself is refused with whatever that fold says, such as an overflow (`Scenarios.RetryFailsToFold`);
  - a cursor two past by the time of the commit is called out of order (`Scenarios.RetryFallsTwoBehind`).
- `platform/sqlite.go:3543-3546` says that a cursor and evidence that disagree were written without each other. They are also
  read so: statements pass for one moment's evidence if and only if the two presences agree, the aggregate is dated, and the
  collector observed nothing between the aggregate and the snapshot row nor between the row and its entries
  (`TornReads.PassesIff`, `TornReads.EvidenceReaderAnswer`). A store is called corrupt only when requests were accepted
  between a read's first and last statement, or for the reason below (`TornReads.CorruptOnlyWhenTorn`).
- `platform/controlplane.go:960-962` and `platform/postgres.go:866-867` say that the counts describe a state that existed. What a
  success reply says of completeness is right, then and ever after, if and only if it is not a replay found while reading
  during which a request saturated the collector between the aggregate and the snapshot row (`TornReads.ReplyRightIff`);
  `FreshRuns.ReplayUnderstates` is such a run. The error is one-sided: evidence called complete was complete
  (`ProtocolRuns.SuccessIsPermanent`).
- `platform/sqlite.go:3026-3033` says that a live aggregate satisfies every rule it is restored under. A first record stamped
  before Go's zero time, which the engine admits (`event/event.go:311-322`), is accepted and leaves the last observation time
  at zero, because `platform/aggregate.go:515-517` only moves it forward from there; the validator then refuses what was
  stored. Stored evidence reads back if and only if nothing was accepted or the first accepted record stands after the zero
  time (`ProtocolSafety.StoredReadsBack`); otherwise nothing is accepted or compared again (`TornReads.UntimelyForever`,
  `FreshRuns.UntimelyHappens`).
- `platform/sqlite.go:2989` says that `sameAggregate` compares every persisted field. It leaves out durations and span statuses
  (`Ingest.SameAggregateMisses`) and nothing else (`Ingest.SameAggregateIff`). It is asked only at equal record counts, which
  no execution brings it (`ProtocolRuns.EqualCountsNeverCompared`).
- `platform/behavior_operational.go:311-313` says that the validator refuses what folding records could not have produced.
  It accepts summaries no durations have (`BucketExactness.ValidatorAcceptsTheGap`) and tokens no observations report
  (`SummaryExactness.ValidatorAcceptsTokenGap`); `SummaryExactness.ProducibleIff` says exactly which it should not.

Assumptions: `SaveEvaluationEvidence` is never called by the control plane, so only ingest writes evidence; digests are
opaque text, equal exactly when the records are taken to be the same; a fingerprint is an opaque identifier. A run may start
from nothing, from evidence of n records stored before cursors were, or with its cursor row but from before observations
were retained.

## Model

| member | source | states |
|---|---|---|
| `ProtocolRuns.QuietStepKeepsOwn` | platform/controlplane.go:916-1035 | Every statement and local decision of a client writes nothing and keeps what is known of its reads |
| `ProtocolRuns.NextKeeps` | platform/postgres.go:905-1022 | Every step of every client and every life-cycle write keeps the protocol invariant |
| `ProtocolRuns.StoreIsReductionOfLog` | platform/controlplane.go:991-1081 | In every interleaving, at every moment, the cursor is accepted requests plus one, the evidence is one continuous reduction of them in sequence order, and the rows are the block that reduction leaves |
| `ProtocolRuns.SuccessIsPermanent` | platform/controlplane.go:948-988 | A success reply for a sequence and digest is a fact of the log ever after, at one position only; evidence it called complete was complete there, and an applied record's reply says exactly whether it was |
| `ProtocolRuns.ReplayChangesNothing` | platform/postgres.go:940-962 | A replay, found while reading or by losing the race to commit, changes no row and appends nothing |
| `ProtocolRuns.FinishedRunIsFrozen` | platform/postgres.go:964-979 | After a run leaves Running nothing is appended and no stored row changes, in any continuation |
| `ProtocolRuns.StepGrowsLog` | platform/postgres.go:964-1022 | A step appends at most one request, only while the run is running, and rows change only with an append |
| `ProtocolRuns.EqualCountsNeverCompared` | platform/sqlite.go:2751-2760 | In every execution a commit that reaches the stale-evidence guard counts one record more than what is stored |
| `ProtocolSafety.CommitLandsExactly` | platform/postgres.go:905-1022 | A client's commit writes if and only if the cursor is where the client found it, the run is running, the digest is well formed and what is stored reads back; no other guard ever refuses it |
| `ProtocolSafety.CurrentCommitPasses` | platform/sqlite.go:2718-2763 | The pair check never fires for a commit whose cursor is unchanged, nor does the stale-evidence guard where stored evidence reads back |
| `ProtocolSafety.CommitElsewise` | platform/postgres.go:940-962 | A commit that does not write leaves every row as it was, and reports success if and only if the cursor is one past its sequence with its digest and what is stored reads back; the log then holds it there, and the completeness is that sequence's own |
| `ProtocolSafety.CommitAnswered` | platform/postgres.go:905-1022 | The answer of every commit, each refusal included, from the log, the run's status and the request alone |
| `ProtocolSafety.StoredReadsBack` | platform/sqlite.go:2909-2958 | What ingest stored, read at one moment, reads back as it was if and only if nothing was accepted or the first record stands after the zero time (or the run began with dated records); otherwise it is corrupt |
| `ProtocolSafety.GatherKeeps` | platform/controlplane.go:1150-1175 | Evidence read while the cursor stood still yields exactly the commit the stored evidence calls for |
| `ControlPlane.IngestDecisionRecord` | platform/controlplane.go:916-1081 | The rows and the reply are those of the specification function, every refusal included |
| `ControlPlane.UndisturbedCall` | platform/controlplane.go:916-1081 | The protocol's statements run for one client alone are exactly that call |
| `ControlPlane.AppliedIffAcceptable` | platform/controlplane.go:916-1035 | Undisturbed, a request is applied if and only if the run is running and timely and the request is in sequence, valid and reducible: no stale or divergent verdict ever refuses one, and no corrupt one on a timely run |
| `TornReads.PassesIff` | platform/sqlite.go:2909-2958 | Statements of three moments pass every check if and only if the aggregate is dated and the collector observed nothing from each to the next |
| `TornReads.CursorReaderAnswer` | platform/sqlite.go:3510-3605 | What any client still deciding whether to admit its request is answered, or that it goes on, by when its statements ran: corrupt if and only if they do not pass for one moment's, replayed if and only if they do and its request is the one the row it read stands behind |
| `TornReads.EvidenceReaderAnswer` | platform/controlplane.go:991-1035 | A client that has read the evidence to fold into prepares its commit if and only if its statements pass for one moment's, its record reduces with what they read and its observation is complete; otherwise the refusal is corruption, the reduction's own, or the observation's |
| `TornReads.CorruptOnlyWhenTorn` | platform/sqlite.go:3543-3566 | In every execution a client is told of corruption only if requests were accepted between its read's first and last statement, or the first record stood before the zero time, or its own digest is malformed |
| `TornReads.ReplyRightIff` | platform/controlplane.go:953-968 | In every execution a success reply is right about completeness if and only if it is not a replay found while reading with a saturating request between the aggregate and the snapshot row |
| `Replies.EveryReplyOfRuns` | platform/controlplane.go:916-1081 | In every execution every reply is the one the client's stage and the moments of its statements call for |
| `Replies.TwinReplaysIff` | platform/controlplane.go:1057-1061 | In every execution a client whose record the log already holds is answered with success, always as a replay, if and only if it is deciding with a whole read behind its cursor row and request, or commits with the cursor one past its sequence on a readable store |
| `TornReads.UntimelyForever` | platform/sqlite.go:3223-3234 | A run whose first record stood before the zero time accepts nothing more and reads back as corrupt, in every continuation |
| `Scenarios.RetryFindsStoreCorrupt` | platform/sqlite.go:3554-3566 | From every attainable state with a cursor row: of two clients with the same acceptable request one can be applied and the other told that the store is corrupt |
| `Scenarios.RetryFindsOtherContent` | platform/controlplane.go:953-974 | From every attainable state without a cursor row: the other can be told that its sequence was accepted with different content |
| `Scenarios.RetryFindsHalfAPair` | platform/sqlite.go:2909-2922 | Of a run that has accepted nothing: the other can find half a pair and be told that the store is corrupt |
| `Scenarios.RetryReplaysAtCommit` | platform/postgres.go:940-962 | From every attainable state: the other, admitted in time, can replay by losing the race to commit, with a cursor row or without one |
| `Scenarios.RetryFailsToFold` | platform/controlplane.go:991-1035 | From every attainable state where the record does not fold a second time: the other, admitted in time, can be refused with that fold's error |
| `Scenarios.RetryFallsTwoBehind` | platform/postgres.go:940-962 | From every attainable state: the other, prepared in time, can be told that its sequence is out of order when one more record is accepted first |
| `Scenarios.SaturatedReplayUnderstates` | platform/controlplane.go:953-968 | From every attainable complete state: a retry of the last record can be told that its evidence was incomplete, while the next record saturates it |
| `FreshRuns.FirstRecordRefusedTwice` | platform/controlplane.go:953-974 | Both refusals happen to the first record of a new run |
| `FreshRuns.LaterRecordFindsCorrupt` | platform/sqlite.go:3554-3566 | And the corrupt verdict to each of the next 512 |
| `FreshRuns.TwinsReplayOrFallBehind` | platform/postgres.go:940-962 | Each of a new run's first 512 records can have a twin that replays at its commit, and one that falls two behind |
| `FreshRuns.TwinOverflows` | platform/operational.go:71-199 | A new run's second record of the longest duration is accepted, and its twin refused as overflowing |
| `FreshRuns.UntimelyHappens` | platform/aggregate.go:399-529 | A new run accepts a first record from any time before the zero time, answers it as applied, and cannot be read again |
| `FreshRuns.ReplayUnderstates` | platform/behavior.go:208-343 | A retry of a new run's 512th record is told that its evidence was incomplete, which it was not |
| `ControlPlane.ComparisonReadsTheReduction` | platform/controlplane.go:1632-1684 | A comparison reads the reduction of the accepted records if and only if the run is timely, and is told of corruption otherwise; absent evidence is never mistaken for either |
| `ControlPlane.CurrentEvidence` | platform/controlplane.go:1150-1175 | Stored evidence becomes reducers again, or empty ones, or the restoration error |
| `Ingest.EvaluationStore.CommitEvaluationIngest` | platform/postgres.go:905-1022 | The whole transaction as a function of the rows before it; an error changes nothing |
| `Ingest.CommitWritesIff` | platform/postgres.go:905-1022 | Over any stored rows, in an execution or not: the transaction writes if and only if the commit is well formed on the cursor it names and its evidence moves forward; it then leaves exactly that evidence, cursor and observation, and otherwise every row as it was |
| `Ingest.SameAggregateIff` | platform/sqlite.go:2989-3007 | The field comparison together with equal durations and span statuses is equality |
| `Ingest.SameAggregateMisses` | platform/sqlite.go:2989-3007 | Two valid aggregates that differ and that it calls the same |
| `Ingest.EvaluationStore.EvaluationIngestState` | platform/sqlite.go:3510-3605 | The cursor checked against the evidence, or derived from it without a digest |
| `Ingest.EvaluationStore.RetainObservation` | platform/postgres.go:1030-1066 | The history row and the observation rows after one record |
| `Ingest.EvaluationStore.UpdateEvaluationRun` | platform/postgres.go:783-826 | A life-cycle write lands only on the run it was computed from and only as a valid transition |
| `Runs.TransitionMovesForward` | platform/domain.go:443-524 | A valid transition only moves forward, never out of a terminal state, and keeps what identifies the run |
| `Runs.TransitionIff` | platform/domain.go:443-524 | Exactly the pairs of runs that are transitions: which statuses, which times in which order, and when a reason |
| `RunEvidence.EvidenceIsAlwaysSound` | platform/behavior.go:208-373 | At every moment, whatever the run began with: at most 512 behaviors in bijection with fingerprints, counts adding up, and the two halves in agreement. Where the run began with nothing or with evidence ingest alone had advanced, and so not with migrated summaries, complete if and only if both halves counted the same records, and then both accounts of durations and statuses equal |
| `RunEvidence.HistoryIsAlwaysTold` | platform/observation.go:284-298 | The history is complete exactly when the run began here and at most 4096 records were accepted, unavailable exactly when nothing was retained of earlier records |
| `RunEvidence.CompleteCorrelationSeesEverything` | platform/counting.go:450-459 | Where the correlation state is complete, the retained rows hold the spans of every request the run accepted |
| `RunEvidence.CorrelationIsAlwaysTold` | platform/counting.go:450-459 | At every moment the correlation state is complete, unavailable or partial exactly by what the run began with and how many records it accepted |
| `RunEvidence.CommitsTellHistory` | platform/postgres.go:940-1022 | The history a successful commit reports, applied or replayed, is that of the run with its record in the log |
| `RunEvidence.StateCounts` | platform/sqlite.go:3570-3605 | Every count of the ingest state is the reduction's |
| `Retention.RetainKeepsBlock` | platform/observation_store.go:167-180 | Retention leaves a gap-free block of the first 4096 sequences, complete exactly when nothing precedes it and nothing was dropped, and never collides with a stored key |
| `Retention.PageOfBlock` | platform/observation_store.go:297-365 | A page by byte order on stored keys is the next rows in sequence order |
| `Retention.ReadPage` | platform/observation_store.go:297-365 | The query and the row loop return that page or the corrupt-key error |
| `Retention.RetainedHistory` | platform/controlplane.go:1357-1392 | The paging loop returns every retained row and always ends on an empty page within its bound |
| `Evidence.ReduceKeepsValid` | platform/controlplane.go:1012-1030 | An accepted record keeps both halves valid and in agreement, counts one, and never restores completeness |
| `Acceptance.ReduceIff` | platform/aggregate.go:399-529 | Exactly which records are accepted, across aggregate, collector and entry: well formed for the environment, identity and names agreeing, and only the record count, the duration totals and the token totals able to be full |
| `Acceptance.AddRecordRefusal` | platform/aggregate.go:399-529 | Which refusal the aggregate gives: full or overflowing, another environment's, or malformed |
| `Acceptance.ObservedRefusal` | platform/behavior.go:208-343 | Which refusal a complete collector gives a well-formed record: invalid, conflict, capacity for a new behavior beyond 512, overflow |
| `Acceptance.ObservationNeverRefused` | platform/observation.go:135-200 | Projecting the observation never refuses a record that folding accepted |
| `Tallies.StoredCountersAreTallies` | platform/aggregate.go:399-640 | In every execution each of the seventeen category counters is its start value and the accepted requests that carried its very value, and the times are the earliest and latest |
| `Tallies.TimingIsFold` | platform/aggregate.go:487-520 | A new run's durations and statuses are the fold of what its requests' duration texts and statuses say |
| `Tallies.StoredEntriesAreTheirRequests` | platform/behavior.go:208-373 | In every execution of a run from nothing each stored entry is the fold, in order, of the observed requests with its fingerprint, one for every such fingerprint, and each of its counters counts exactly what they measured, stated and reported |
| `Tallies.ObservationsAreTheirRequests` | platform/observation.go:135-200 | Each observation is its request's, and new exactly if no earlier observed request had the fingerprint |
| `Evidence.CompleteMeansEqual` | platform/controlplane.go:1017-1030 | Both halves' counts agree exactly while the collector is complete |
| `Evidence.ValidateRestoredSnapshot` | platform/sqlite.go:3399-3475 | The row loop accepts exactly what the rules on entries, counts and order say, comparing neighbours only and guarding the total; the rules on the snapshot's run, candidate, environment and profile identifiers are omitted |
| `Evidence.StoredSnapshotReadsBack` | platform/sqlite.go:3284-3332 | Every valid collector's snapshot passes the restore-time validator |
| `Collector.BehaviorCollector.ObserveOperational` | platform/behavior.go:208-343 | The next state and the error, as the specification that `Tallies` and `Acceptance` pin to the requests; only saturation changes a refused state |
| `Collector.ObservedKeepsValid` | platform/behavior.go:208-343 | Every observation keeps the bijection, the 512 bound, the count sum and each entry's validity |
| `Collector.BehaviorCollector.Snapshot` | platform/behavior.go:354-373 | The sorted copy, whatever order the map yields |
| `Collector.CollectorFromSnapshot` | platform/ingest.go:344-375 | Both indexes rebuilt, or a refusal exactly where a fingerprint or behavior repeats |
| `Collector.RestoreInvertsSnapshot` | platform/ingest.go:344-375 | Restoring a snapshot gives back the collector it was taken from |
| `Conservation.ReduceConserves` | platform/behavior_operational.go:186-309 | A record counted in both halves keeps the behaviors' durations and statuses adding up to the aggregate's, with no overflow |
| `Conservation.SnapshotSumIsAggregate` | platform/operational_comparison.go:124-148 | Summing a run's behaviors succeeds if and only if its three token totals fit, and then recovers the aggregate's durations and statuses |
| `Conservation.AddSucceedsIff` | platform/behavior_operational.go:266-309 | Of valid summaries only a duration total or a token total can overflow when added |
| `Conservation.OperationalSide.AddRun` | platform/operational_comparison.go:124-148 | The side's sum and its three run counters, unchanged when a sum overflows |
| `Conservation.ErrorsAvailableMeans` | platform/operational_comparison.go:69-71 | On valid evidence the wrapping sums mean that some observation stated an outcome |
| `Aggregate.AddRecordKeepsSound` | platform/aggregate.go:399-529 | The unguarded category counters never wrap, each category staying a partition of the guarded record count; the result passes the restore-time validator if and only if it is not the first record or stands after the zero time |
| `Aggregate.ReadDurationExact` | decision_record.go:176-205 | A duration is read from the canonical text of a number within the maximum and from no other |
| `Counting.BuildBehaviorParentage` | platform/counting.go:182-253 | The two passes compute the parentage relation, the unexplained identities and the ambiguity flag |
| `Counting.FoldAddedChanges` | platform/counting.go:298-360 | The imperative fold equals its specification on every sorted added set |
| `Counting.FoldRefinesOccurrenceRule` | platform/counting.go:268-360 | Over a complete history the fold succeeds exactly when no span is ambiguous and no parent chain cyclic, counts exactly what the occurrence rule does not fold away, and lists exactly what lies beneath each root |
| `Counting.FoldCoversAndOnlyLowers` | platform/counting.go:342-438 | At most one change per identity, at least one when there are any, every identity covered, roots sorted |
| `Counting.PermutedHistoriesFoldAlike` | platform/counting.go:188-253 | Every order of the history folds alike, although the span map keeps the first identity seen |
| `Counting.EligibleIsFoldedAway` | platform/counting.go:268-282 | The per-identity summary loses nothing the occurrence rule needs |
| `Graph.HasCycle` | platform/counting.go:368-397 | Terminates and answers true exactly when some directed cycle exists |
| `Graph.ReachableFrom` | platform/counting.go:402-422 | Exactly the identities reachable from the root |
| `Operational.RestoredValidatorExact` | platform/operational.go:212-303 | The duration and status validator accepts a pair for n records if and only if some stream of n plausible records folds to it |
| `Operational.ValidateRestoredOperational` | platform/operational.go:212-303 | The guarded comparisons decide the rules over unbounded integers |
| `Operational.FoldStreamMeaning` | platform/operational.go:71-199 | A plausible stream folds exactly when its measured total fits, and then to the true count, total, extrema and tallies |
| `Operational.AddIsConcatenation` | platform/behavior_operational.go:266-309 | Adding two folded summaries is folding the concatenation, overflow included |
| `Bounded.AddMulNoOverflow` | platform/operational.go:311-320 | The division guard refuses exactly when the true value does not fit |
| `Bounded.SumNoOverflow` | platform/sqlite.go:3272-3281 | The loop refuses exactly when the true total does not fit |
| `BehaviorOperational.FoldIsHomomorphism` | platform/behavior_operational.go:186-309 | The fold of a concatenation is the sum of the folds, overflow included |
| `BehaviorOperational.AddCommutes` | platform/behavior_operational.go:266-309 | Addition of reachable summaries commutes |
| `BehaviorOperational.FoldIgnoresOrder` | platform/behavior_operational.go:186-309 | Streams of the same records in any order fold alike, overflow included |
| `BehaviorOperational.AddAssociates` | platform/behavior_operational.go:266-309 | Addition associates with overflow absorbing |
| `BehaviorOperational.AddIdentity` | platform/behavior_operational.go:266-309 | The empty summary is the identity |
| `BehaviorOperational.ObservedIsValid` | platform/behavior_operational.go:314-411 | Every summary a stream of accepted records folds to passes the validator |
| `BehaviorOperational.AddKeepsValid` | platform/behavior_operational.go:314-411 | A sum of valid summaries that does not overflow is valid for both counts together |
| `BehaviorOperational.ValidateOperationalSummary` | platform/behavior_operational.go:314-377 | The validator as written decides its rules over unbounded integers |
| `BehaviorOperational.CheckSumAgainstBuckets` | platform/behavior_operational.go:381-411 | The two overflow flags decide the unbounded bounds |
| `BehaviorOperational.BucketUnique` | platform/behavior_operational.go:56-63 | Each duration lies in exactly one bucket |
| `BehaviorOperational.BucketTable` | platform/behavior_operational.go:42-63 | The bucket boundaries in nanoseconds |
| `BehaviorOperational.UnavailableIsValid` | platform/behavior_operational.go:172-179 | The migration's summary passes the validator for its observations |
| `SummaryExactness.ProducibleIff` | platform/behavior_operational.go:314-411 | Some n records, filled in as both producers fill them, fold to a summary if and only if the validator accepts it for n, its sum fits the bucket edges tightened to the extrema (or fewer than two were measured), and its tokens fit the observations that reported any |
| `SummaryExactness.FoldCountsStream` | platform/behavior_operational.go:186-250 | Each counter of a folded summary counts exactly its samples: durations by bucket with their statistics, statuses, codes by hundred and the 429s, and the tokens of those that reported any |
| `SummaryExactness.AdmissibleIff` | platform/behavior_operational.go:132-169 | The same for records that pass Validate and nothing more, where only a single reporting observation constrains the tokens |
| `SummaryExactness.ValidatorAcceptsTokenGap` | platform/behavior_operational.go:314-377 | A concrete summary of one observation whose tokens every check accepts and no producer reports |
| `BucketExactness.AcceptedIsRealizableIff` | platform/behavior_operational.go:381-411 | An accepted histogram, extrema and sum belong to some list of durations if and only if there are fewer than two or the sum fits the tightened edges |
| `BucketExactness.ValidatorAcceptsTheGap` | platform/behavior_operational.go:314-411 | A concrete summary of three durations that every check accepts and no durations have |
| `BucketExactness.FoldIsTight` | platform/behavior_operational.go:186-250 | No stream of accepted records leaves a summary in that gap |
| `Fidelity.FidelityValidatorExact` | platform/behavior_fidelity.go:180-203 | The nine-counter validator accepts exactly what that many valid observations produce |
| `Fidelity.FoldCountsStated` | platform/behavior_fidelity.go:92-136 | Each of the nine counters by what the observations it counts stated |
| `Fidelity.ReportedMeans` | platform/behavior_fidelity.go:139-152 | The reported level and whether it mixes kinds, by which kinds the stream holds |
| `Fidelity.ReportedIgnoresOrder` | platform/behavior_fidelity.go:139-175 | The level reported for a sum over runs is the same in any order |
| `Fidelity.SumReportsLowest` | platform/behavior_fidelity.go:139-175 | That level is the lowest any run reports |
| `EvidenceColumns.EncodeOperationalCounts` | platform/evidence_columns.go:234-244 | The text written counter by counter is the specified one |
| `EvidenceColumns.DecodeOperationalCounts` | platform/evidence_columns.go:251-284 | Walking the text field by field accepts and reads exactly what the specification does |
| `EvidenceColumns.OperationalSurvivesStorage` | platform/evidence_columns.go:234-284 | Decoding what was encoded returns the summary if and only if its duration count equals its bucket total |
| `EvidenceColumns.StoredPositions` | platform/evidence_columns.go:219-232 | Which of the thirty-one stored numbers is which counter |
| `EvidenceColumns.OperationalTextUnique` | platform/evidence_columns.go:251-294 | Encoding what was decoded returns the text |
| `EvidenceColumns.BackfillDecodes` | platform/evidence_columns.go:315-334 | The migration text decodes to the unavailable summary for its observations |
| `EvidenceColumns.EncodeFidelityCounts` | platform/behavior_fidelity.go:233-242 | The same for the nine fidelity counters |
| `EvidenceColumns.DecodeFidelityCounts` | platform/behavior_fidelity.go:248-270 | The same for reading them |
| `EvidenceColumns.FidelitySurvivesStorage` | platform/behavior_fidelity.go:233-270 | The fidelity text decodes to the counters it was encoded from |
| `EvidenceColumns.StoredFidelityPositions` | platform/behavior_fidelity.go:225-230 | Which of the nine stored numbers is which counter |
| `EvidenceColumns.FidelityTextUnique` | platform/behavior_fidelity.go:248-270 | Encoding decoded fidelity counters returns the text |
| `EvidenceColumns.FidelityBackfillDecodes` | platform/behavior_fidelity.go:294-310 | The fidelity migration text decodes to all observations unrecorded, which validates |
| `Codec.PrintParses` | platform/evidence_columns.go:288-294 | A number has one accepted text, the printed one |
| `Codec.ParsePrints` | platform/evidence_columns.go:288-294 | Every printed number is accepted as itself |
| `Codec.KeyOrderIsNumericOrder` | platform/observation_columns.go:33-38 | Byte order on stored keys is numeric order, and each sequence has one key |
| `Codec.KeyRoundTrip` | platform/observation_columns.go:48-64 | Every positive sequence is read back from its key and nothing else is accepted for it |
| `Diff.CompareBehaviorSnapshots` | platform/behavior.go:605-740 | The comparison, or which of the four refusals applies |
| `Diff.AssertConsistentIdentity` | platform/behavior.go:900-921 | The loop over one side decides consistency of all pairs in both directions |
| `DiffProperties.DiffPartitions` | platform/behavior.go:605-740 | Added and shared make the candidate, removed and shared the reference, and per-behavior counts add up to each side's observations |
| `DiffProperties.ComparedDeltas` | platform/behavior.go:650-740 | Deltas are sorted, cover exactly the identities of either side, and each is what its entries call for |
| `DiffProperties.DiffSwaps` | platform/behavior.go:605-740 | Swapping the sides succeeds exactly when comparing did and mirrors every delta, both sides' totals and which side lacks which evidence |
| `DiffProperties.RestoredIsBound` | platform/behavior.go:605-625 | Snapshots read back from storage meet what a comparison asks of them |
| `DiffMeaning.ComparedIff` | platform/behavior.go:605-650 | A comparison is made if and only if both snapshots are complete and of one environment, identities agree pair by pair, and each side's durations and tokens fit; otherwise the first that fails is the refusal |
| `DiffMeaning.OperationalIsTold` | platform/operational_comparison.go:25-171 | Latency, errors and tokens are comparable or unavailable on the named side exactly by which side has an entry that measured, stated or reported any |
| `DiffMeaning.RestoredIsCounted` | platform/behavior.go:605-625 | Snapshots read back from storage meet what these results ask |
| `Gate.WithCorrelation` | platform/behavior.go:768-782 | The fold is applied and the arithmetic check after it never refuses |
| `Gate.CorrelatedCountsTheRule` | platform/behavior.go:743-782 | A complete correlation counts exactly the added identities the occurrence rule keeps |
| `Gate.GateAcceptsEveryDiff` | platform/gate.go:400-461 | Both arithmetic guards accept every comparison produced, folded or not |
| `Gate.GatePassesIff` | platform/gate.go:308-389 | Over any two runs' evidence and any comparison of it: the scorecard is made, the gate answers, each check is its own, and it passes if and only if both runs accepted a record and added identities, blocked and critical records and limited changes are within their limits |
| `GateOnRuns.GatePassesOnRuns` | platform/scorecard.go:335-417 | The same over two new runs' accepted requests: the fingerprints only the candidate's carried, its requests that decided Block, and those of critical risk |
| `Gate.GateRefusesIff` | platform/gate.go:400-461 | Exactly which contradictory numbers the gate refuses to judge |
| `Gate.FoldOnlyHelps` | platform/gate.go:308-389 | Under every set of limits the gate answers on the folded and the unfolded comparison, a pass on the unfolded one is a pass on the folded one, and the verdicts differ exactly where the change limit lies between the two counts |
| `Cost.ModelCostExact` | platform/cost.go:208-222 | The limb arithmetic is exactly the floor, and errs if and only if it does not fit |
| `Cost.CostSide.AddRun` | platform/cost.go:125-168 | A run is refused exactly when some token total no longer fits; otherwise every counter is its true total |
| `Cost.CostSide.Evidence` | platform/cost.go:179-204 | Pricing in any map order gives the figures of the specification that `PriceSide` pins to the entries, or the same refusal |
| `Cost.PricingIgnoresOrder` | platform/cost.go:125-204 | Cost, totals and whether pricing errs are independent of the order of entries, runs and models |
| `Cost.PricedAndUnpricedAreAll` | platform/cost.go:125-204 | Priced and unpriced tokens together are all tokens reported |
| `Cost.PriceSide` | platform/cost.go:226-244 | A whole side is priced if and only if each of its five figures fits; its cost is then the sum over models of the floored cost of that model's input tokens at its input price and output tokens at its output price, and priced, unpriced, reporting and silent counts are each their own total over the entries |
| `Frequency.StatsAreTrue` | platform/frequency.go:63-93 | The figures are the true total, minimum, maximum and floored mean over all runs, absent ones as zero, with the mean between the extrema; an error exactly when the mean does not fit |
| `Frequency.FloorDivExact` | platform/frequency.go:97-104 | The 128-bit division is the floor, and errs exactly when it does not fit |
| `Frequency.FrequencySide.AddRun` | platform/frequency.go:152-209 | A run is refused exactly when calls of some behavior, target or name, or a 429 or stated-status count of some target, no longer fit; otherwise all five accounts stand for one run more |
| `Frequency.CallsAreConserved` | platform/frequency.go:152-209 | After any sequence of runs the accumulators by behavior, by target and by name hold the same calls in all, which are all the calls of those runs |
| `Frequency.CallsAre` | platform/frequency.go:152-209 | Which entries' observations are the calls of a behavior, a target and a name |
| `Frequency.StatusesAre` | platform/frequency.go:174-188 | Which entries' counters are a target's 429s and stated codes |
| `FrequencyGate.MaxCallsPerRun` | platform/frequency_gate.go:226-253 | The limit check reads each name's true per-run maximum and passes exactly when every limit holds of every candidate run |
| `FrequencyGate.MaxLlmCallsPerRun` | platform/frequency_gate.go:255-298 | Passes exactly when every candidate run has a model-layer observation and none exceeds the limit; the run it names does not depend on listing order |
| `FrequencyGate.MinCandidateFrequency` | platform/frequency_gate.go:187-210 | Passes exactly when everything always present in the reference is present in enough candidate runs |
| `FrequencyGate.LostAreCounted` | platform/frequency.go:270-275 | The lost behaviors are those in every reference repetition and missing from some candidate one |
| `FrequencyGate.EvaluateFrequencyGates` | platform/frequency_gate.go:167-300 | The verdict over the four checks holds exactly when every limit set holds |
| `FrequencyGate.LayerEvidenceOf` | platform/frequency_gate.go:157-165 | The model-layer total, refused exactly when it does not fit |
| `FrequencyGate.ModelCallsAre` | platform/frequency_gate.go:157-165 | The model-layer total is the sum of the entries' model-layer counters |

## Left out

- BehaviorOperational.AddKeepsValid: states soundness only, because the validator is not exact; SummaryExactness gives the exact condition.
- Frequency.FrequencySide.AddRun: a run that is refused leaves the side in an unspecified state, as its caller discards it.
- Cost.CostSide.AddRun: says nothing of the counters after a refusal, because every caller discards the side.
- Collector.ObservedKeepsValid: identifiers are byte sequences and the UTF-8 check on them is not modelled.
- Aggregate.AddRecordKeepsSound: the five floating-point metric summaries are one flag saying that all signals are in range; times are instants, so their zone offsets are not kept.
- Observation rows keep the sequence, fingerprint, spans and new-behavior flag that counting reads; their timestamps and other text are not modelled.
- Evidence.ValidateRestoredSnapshot: the well-formedness of the run, candidate, environment and profile identifiers (platform/sqlite.go:3388-3397) is not modelled, as one run's are constant and checked when it is created; of these only the environment is compared.
- Diff.CompareBehaviorSnapshots: rates, being floats derived from the counts, are not modelled.
- Gate.GatePassesIff: of the scorecard only the fields the gate reads are modelled; the other category comparisons and their rates are copies and floats, and run, candidate and profile identifiers are taken to match.
- Error values are classes: the several sentinel errors for an invalid record are one, and messages are dropped.
- Writes through SaveEvaluationEvidence: no caller in the control plane.
- Per-target operational rows: the same grouping by target as the frequency side, followed by the side's own addition.
- Filtered observation pages and the session and trace views: the unfiltered page carries the ordering argument.
- The repeated-comparison reduction that counts presence over runs: the checks take its rows as inputs.
- SQL text, connection handling, realtime publication, the schema migration dispatcher, configuration, environments and promotions: plumbing, or simpler copies of the compare-and-swap proved here.
