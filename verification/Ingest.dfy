/** The durable state of one run and the store operations on it (platform/ingest.go, platform/postgres.go), each as one
    atomic step on that state. */
module Ingest {
  import opened Bounded
  import opened Ordering
  import opened Codec
  import opened Operational
  import opened BehaviorOperational
  import F = Fidelity
  import opened Aggregate
  import opened Collector
  import opened Evidence
  import opened Runs
  import opened Counting
  import opened Retention

  datatype Cursor = Cursor(next: U64, digest: string)

  /** One run's rows. The cursor row may be absent beside evidence: a run migrated from before cursors were stored. */
  datatype Durable = Durable(run: EvaluationRun, cursor: Option<Cursor>, evidence: Option<StoredEvidence>, retained: Retained)

  datatype IngestState = IngestState(
    next: U64, digest: string, recordCount: U64, behaviorObservations: U64, distinctBehaviors: nat, behaviorComplete: bool)

  datatype Commit = Commit(
    previousNext: U64, sequence: U64, digest: string,
    aggregate: EvaluationAggregate, snapshot: BehaviorSnapshot, observation: Observation)

  datatype CommitResult = CommitResult(
    alreadyCommitted: bool, next: U64, recordCount: U64, behaviorComplete: bool, history: ObservationHistory)

  /** The shape RecordDigest writes: sixty-four lowercase hexadecimal characters. */
  predicate ValidDigest(d: string) {
    |d| == 64 && forall i | 0 <= i < |d| :: '0' <= d[i] <= '9' || 'a' <= d[i] <= 'f'
  }

  // ---- Reading evidence and cursor ----------------------------------------------------------------------------

  /** The statements that read evidence, each filled in when it has run. Under READ COMMITTED each sees the rows as they
      are at its own moment. */
  datatype Reads = Reads(
    hasAggregate: Option<bool>, hasSnapshot: Option<bool>,
    aggregate: Option<EvaluationAggregate>, header: Option<SnapshotHeader>, entries: Option<seq<BehaviorEntry>>)

  const NOTHING_READ := Reads(None, None, None, None, None)

  predicate Finished(r: Reads) {
    r.hasAggregate.Some? && r.hasSnapshot.Some?
    && (r.hasAggregate.value && r.hasSnapshot.value ==> r.aggregate.Some? && r.header.Some? && r.entries.Some?)
  }

  /** The next statement, run against the rows as they are now. A row that is gone reads as no evidence. */
  function ReadNext(r: Reads, d: Durable): Reads {
    if r.hasAggregate.None? then r.(hasAggregate := Some(d.evidence.Some?))
    else if r.hasSnapshot.None? then r.(hasSnapshot := Some(d.evidence.Some?))
    else if d.evidence.None? then r.(hasAggregate := Some(false), hasSnapshot := Some(false))
    else if r.aggregate.None? then r.(aggregate := Some(d.evidence.value.aggregate))
    else if r.header.None? then r.(header := Some(HeaderOf(d.evidence.value.snapshot)))
    else r.(entries := Some(d.evidence.value.snapshot.entries))
  }

  /** Every statement at one moment. */
  function ReadAll(d: Durable): Reads {
    match d.evidence
    case None => Reads(Some(false), Some(false), None, None, None)
    case Some(e) => Reads(Some(true), Some(true), Some(e.aggregate), Some(HeaderOf(e.snapshot)), Some(e.snapshot.entries))
  }

  /** What the aggregate, snapshot and pair checks let through. */
  ghost predicate Trusted(a: EvaluationAggregate, s: BehaviorSnapshot, distinct: nat, environment: string) {
    ValidAggregate(a) && RestoredSnapshotValid(s, distinct) && PairAgrees(a, s) && a.environment == environment
  }

  ghost function EvidenceRead(r: Reads, environment: string): Result<Option<StoredEvidence>, IngestError>
    requires Finished(r)
  {
    if !r.hasAggregate.value && !r.hasSnapshot.value then Ok(None)
    else if !r.hasAggregate.value || !r.hasSnapshot.value then Err(ErrStoreCorrupt)
    else
      var s := Assembled(r.header.value, r.entries.value);
      if Trusted(r.aggregate.value, s, r.header.value.distinct, environment) then Ok(Some(StoredEvidence(r.aggregate.value, s)))
      else Err(ErrStoreCorrupt)
  }

  ghost function StoredOutcome(d: Durable): Result<Option<StoredEvidence>, IngestError> {
    EvidenceRead(ReadAll(d), d.run.environment)
  }

  /** ingestState: the cursor row checked against the evidence, or a cursor derived from the evidence where there is no
      row, with no digest. */
  function StateFrom(row: Option<Cursor>, outcome: Result<Option<StoredEvidence>, IngestError>): Result<IngestState, IngestError> {
    if row.Some? && (row.value.next == 0 || !ValidDigest(row.value.digest)) then Err(ErrStoreCorrupt)
    else
      match outcome
      case Err(e) => Err(e)
      case Ok(None) => if row.Some? then Err(ErrStoreCorrupt) else Ok(IngestState(1, "", 0, 0, 0, true))
      case Ok(Some(e)) =>
        if e.aggregate.recordCount == MAX_UINT64 then Err(if row.Some? then ErrStoreCorrupt else ErrSequence)
        else if row.Some? && row.value.next != e.aggregate.recordCount + 1 then Err(ErrStoreCorrupt)
        else Ok(IngestState(e.aggregate.recordCount + 1, if row.Some? then row.value.digest else "",
                            e.aggregate.recordCount, e.snapshot.observations, |e.snapshot.entries|, e.snapshot.complete))
  }

  ghost function StateOf(d: Durable): Result<IngestState, IngestError> {
    StateFrom(d.cursor, StoredOutcome(d))
  }

  predicate GenuinelyEmpty(s: IngestState) {
    s.next == 1 && s.digest == "" && s.recordCount == 0 && s.behaviorObservations == 0 && s.distinctBehaviors == 0 && s.behaviorComplete
  }

  // ---- Committing ---------------------------------------------------------------------------------------------

  /** sameAggregate, which leaves out durations and span statuses. */
  predicate SameAggregate(a: EvaluationAggregate, b: EvaluationAggregate) {
    a.(durations := b.durations, statuses := b.statuses) == b
  }

  /** What it leaves out, exactly. */
  lemma SameAggregateIff(a: EvaluationAggregate, b: EvaluationAggregate)
    ensures a == b <==> SameAggregate(a, b) && a.durations == b.durations && a.statuses == b.statuses
  {
    assert a == a.(durations := a.durations, statuses := a.statuses);
  }

  /** One allowed record with these durations and statuses. */
  function OneRecord(d: DurationSummary, c: SpanStatusCounts): EvaluationAggregate {
    EvaluationAggregate("staging", 1, 1, 1, DecisionCounts(1, 0, 0, 0, 0, 0), RiskCounts(1, 0, 0, 0), ApprovalCounts(1, 0, 0, 0, 0),
                        PolicySelection(0, 1), d, c)
  }

  lemma OneRecordIsValid(d: DurationSummary, c: SpanStatusCounts)
    requires ValidRestored(d, c, 1)
    ensures ValidAggregate(OneRecord(d, c))
  {
    hide ValidRestored;
  }

  lemma UntimedIsValid(c: SpanStatusCounts)
    requires c.unavailable + c.unset + c.ok + c.error == 1
    ensures ValidRestored(NO_DURATIONS.(unobserved := 1), c, 1)
  {
    hide SharpTotal;
  }

  lemma TimedIsValid(nanos: U64, c: SpanStatusCounts)
    requires c.unavailable + c.unset + c.ok + c.error == 1 && nanos <= MAX_DURATION_NANOS
    ensures ValidRestored(DurationSummary(1, 0, nanos, nanos, nanos), c, 1)
  {
    hide SharpTotal;
  }

  /** A record whose span succeeded untimed, and one whose span failed after any time, are the same to it. */
  lemma SameAggregateMisses(nanos: U64)
    requires nanos <= MAX_DURATION_NANOS
    ensures var a := OneRecord(NO_DURATIONS.(unobserved := 1), NO_STATUSES.(ok := 1));
            var b := OneRecord(DurationSummary(1, 0, nanos, nanos, nanos), NO_STATUSES.(error := 1));
            ValidAggregate(a) && ValidAggregate(b) && SameAggregate(a, b) && a != b
  {
    hide ValidAggregate, ValidRestored;
    UntimedIsValid(NO_STATUSES.(ok := 1));
    TimedIsValid(nanos, NO_STATUSES.(error := 1));
    OneRecordIsValid(NO_DURATIONS.(unobserved := 1), NO_STATUSES.(ok := 1));
    OneRecordIsValid(DurationSummary(1, 0, nanos, nanos, nanos), NO_STATUSES.(error := 1));
  }

  /** checkEvidenceNotStale, given what is stored. */
  function StaleError(stored: Result<Option<StoredEvidence>, IngestError>, c: Commit): Option<IngestError> {
    match stored
    case Err(e) => Some(e)
    case Ok(None) => None
    case Ok(Some(e)) =>
      if !e.snapshot.complete && c.snapshot.complete then Some(ErrStoreConflict)
      else if c.aggregate.recordCount < e.aggregate.recordCount then Some(ErrStoreConflict)
      else if c.aggregate.recordCount == e.aggregate.recordCount && (!SameAggregate(e.aggregate, c.aggregate) || e.snapshot != c.snapshot)
      then Some(ErrStoreConflict)
      else None
  }

  /** The checks made before the transaction opens. */
  function CommitRefused(c: Commit): Option<IngestError> {
    if !PairAgrees(c.aggregate, c.snapshot) then Some(ErrStoreConflict)
    else if !ValidDigest(c.digest) then Some(ErrStoreCorrupt)
    else if c.observation.sequence != c.sequence then Some(ErrInvalidObservation)
    else if c.sequence == MAX_UINT64 then Some(ErrSequence)
    else if c.sequence != c.previousNext then Some(ErrSequence)
    else None
  }

  predicate HistoryCorrupt(t: Retained) {
    t.history.Some? && t.history.value.retained > MAX_RETAINED_OBSERVATIONS
  }

  /** A cursor that moved: the same record committed by someone else is a replay, anything else a conflict. */
  function Moved(d: Durable, state: IngestState, c: Commit): Result<CommitResult, IngestError>
    requires c.sequence < MAX_UINT64
  {
    if state.next == c.sequence + 1 && state.digest == c.digest then
      if HistoryCorrupt(d.retained) then Err(ErrStoreCorrupt)
      else Ok(CommitResult(true, state.next, state.recordCount, state.behaviorComplete, HistoryOf(d.retained.history, state.recordCount)))
    else Err(ErrSequence)
  }

  function Written(d: Durable, c: Commit): (Durable, Result<CommitResult, IngestError>)
    requires c.sequence < MAX_UINT64
  {
    match Retain(d.retained, c.observation)
    case None => (d, Err(if HistoryCorrupt(d.retained) then ErrStoreCorrupt else ErrStoreAlreadyExists))
    case Some(t) =>
      (Durable(d.run, Some(Cursor(c.sequence + 1, c.digest)), Some(StoredEvidence(c.aggregate, c.snapshot)), t),
       Ok(CommitResult(false, c.sequence + 1, c.aggregate.recordCount, c.snapshot.complete, HistoryOf(t.history, 0))))
  }

  /** CommitEvaluationIngest: the whole transaction, run under the run's row lock. Any error leaves every row as it was. */
  ghost function CommitSpec(d: Durable, c: Commit): (Durable, Result<CommitResult, IngestError>) {
    match CommitRefused(c)
    case Some(e) => (d, Err(e))
    case None =>
      match StateOf(d)
      case Err(e) => (d, Err(e))
      case Ok(state) =>
        if state.next != c.previousNext then (d, Moved(d, state, c))
        else if d.run.status != RunRunning then (d, Err(ErrEvaluationState))
        else if d.run.environment != c.aggregate.environment then (d, Err(ErrStoreConflict))
        else
          match StaleError(StoredOutcome(d), c)
          case Some(e) => (d, Err(e))
          case None => Written(d, c)
  }

  /** What the transaction asks of the stored rows and the commit, whatever state they are in: a well-formed commit on the cursor
      it names, of a running run of its environment, onto evidence that reads back or is absent. */
  ghost predicate CommitMeets(d: Durable, c: Commit) {
    && ValidDigest(c.digest) && c.sequence == c.previousNext == c.observation.sequence < MAX_UINT64
    && StateOf(d).Ok? && StateOf(d).value.next == c.sequence && d.run.status == RunRunning && d.run.environment == c.aggregate.environment
    && StoredOutcome(d).Ok? && Retain(d.retained, c.observation).Some?
  }

  /** Evidence only moves forward: a commit never counts fewer records than are stored, restores completeness that was lost, or
      says something else of the same records; and its own halves count alike. */
  ghost predicate MovesForward(stored: Option<StoredEvidence>, c: Commit) {
    && c.aggregate.environment == c.snapshot.environment && c.snapshot.observations <= c.aggregate.recordCount
    && (c.snapshot.complete ==> c.snapshot.observations == c.aggregate.recordCount)
    && (stored.Some? ==>
          && stored.value.aggregate.recordCount <= c.aggregate.recordCount
          && (c.snapshot.complete ==> stored.value.snapshot.complete)
          && (stored.value.aggregate.recordCount == c.aggregate.recordCount ==>
                SameAggregate(stored.value.aggregate, c.aggregate) && stored.value.snapshot == c.snapshot))
  }

  /** The transaction writes if and only if its commit is met and moves the evidence forward; it then leaves exactly the commit's
      evidence, the cursor past it, and its observation, and otherwise leaves every row as it was. */
  lemma CommitWritesIff(d: Durable, c: Commit)
    ensures var (after, r) := CommitSpec(d, c);
            && (r.Ok? && !r.value.alreadyCommitted <==> CommitMeets(d, c) && MovesForward(StoredOutcome(d).value, c))
            && (r.Ok? && !r.value.alreadyCommitted ==>
                  && c.sequence < MAX_UINT64 && after.run == d.run && after.cursor == Some(Cursor(c.sequence + 1, c.digest))
                  && after.evidence == Some(StoredEvidence(c.aggregate, c.snapshot))
                  && Some(after.retained) == Retain(d.retained, c.observation))
            && (r.Err? || r.value.alreadyCommitted ==> after == d)
  {
    hide ValidDigest, StateOf, StoredOutcome, Retain, HistoryOf, SameAggregate;
  }

  /** UpdateEvaluationRun: a life-cycle write lands only on the run it was computed from. */
  function UpdateSpec(d: Durable, previous: EvaluationRun, next: EvaluationRun): (Durable, Option<IngestError>) {
    if !ValidTransition(previous, next) then (d, Some(ErrStoreConflict))
    else if d.run != previous then (d, Some(ErrStoreConflict))
    else (d.(run := next), None)
  }

  // ---- The store ----------------------------------------------------------------------------------------------

  class EvaluationStore {
    var run: EvaluationRun
    var cursor: Option<Cursor>
    var evidence: Option<StoredEvidence>
    var rows: map<string, Observation>
    var history: Option<HistoryRow>

    ghost function State(): Durable
      reads this
    {
      Durable(run, cursor, evidence, Retained(rows, history))
    }

    constructor (run: EvaluationRun)
      ensures State() == Durable(run, None, None, NOTHING_RETAINED)
    {
      this.run := run;
      cursor := None;
      evidence := None;
      rows := map[];
      history := None;
    }

    /** loadEvidence. */
    method LoadEvidence() returns (r: Result<Option<StoredEvidence>, IngestError>)
      ensures r == StoredOutcome(State())
    {
      if evidence.None? {
        return Ok(None);
      }
      var e := evidence.value;
      assert Assembled(HeaderOf(e.snapshot), e.snapshot.entries) == e.snapshot;
      if !ValidAggregate(e.aggregate) {
        return Err(ErrStoreCorrupt);
      }
      var ok := ValidateRestoredSnapshot(e.snapshot, |e.snapshot.entries|);
      if !ok || !PairAgrees(e.aggregate, e.snapshot) || e.aggregate.environment != run.environment {
        return Err(ErrStoreCorrupt);
      }
      r := Ok(Some(e));
    }

    method EvaluationIngestState() returns (r: Result<IngestState, IngestError>)
      ensures r == StateOf(State())
    {
      var outcome := LoadEvidence();
      r := StateFrom(cursor, outcome);
    }

    method CheckEvidenceNotStale(c: Commit) returns (e: Option<IngestError>)
      ensures e == StaleError(StoredOutcome(State()), c)
    {
      var outcome := LoadEvidence();
      e := StaleError(outcome, c);
    }

    /** retainObservationPostgres. */
    method RetainObservation(o: Observation) returns (ok: bool)
      modifies this`rows, this`history
      ensures ok <==> Retain(old(State()).retained, o).Some?
      ensures State() == old(State()).(retained := if ok then Retain(old(State()).retained, o).value else old(State()).retained)
    {
      if history.Some? && history.value.retained > MAX_RETAINED_OBSERVATIONS {
        return false;
      }
      var plan := PlanRetention(history, o.sequence);
      if plan.insert {
        if SequenceKey(o.sequence) in rows {
          return false;
        }
        rows := rows[SequenceKey(o.sequence) := o];
      }
      history := Some(HistoryRow(plan.retained, plan.complete));
      ok := true;
    }

    method CommitEvaluationIngest(c: Commit) returns (r: Result<CommitResult, IngestError>)
      modifies this
      ensures (State(), r) == CommitSpec(old(State()), c)
    {
      var refused := CommitRefused(c);
      if refused.Some? {
        return Err(refused.value);
      }
      var current := EvaluationIngestState();
      if current.Err? {
        return Err(current.error);
      }
      var state := current.value;
      if state.next != c.previousNext {
        if state.next == c.sequence + 1 && state.digest == c.digest {
          if history.Some? && history.value.retained > MAX_RETAINED_OBSERVATIONS {
            return Err(ErrStoreCorrupt);
          }
          return Ok(CommitResult(true, state.next, state.recordCount, state.behaviorComplete, HistoryOf(history, state.recordCount)));
        }
        return Err(ErrSequence);
      }
      if run.status != RunRunning {
        return Err(ErrEvaluationState);
      }
      if run.environment != c.aggregate.environment {
        return Err(ErrStoreConflict);
      }
      var stale := CheckEvidenceNotStale(c);
      if stale.Some? {
        return Err(stale.value);
      }
      var corrupt := history.Some? && history.value.retained > MAX_RETAINED_OBSERVATIONS;
      var retained := RetainObservation(c.observation);
      if !retained {
        return Err(if corrupt then ErrStoreCorrupt else ErrStoreAlreadyExists);
      }
      evidence := Some(StoredEvidence(c.aggregate, c.snapshot));
      cursor := Some(Cursor(c.sequence + 1, c.digest));
      r := Ok(CommitResult(false, c.sequence + 1, c.aggregate.recordCount, c.snapshot.complete, HistoryOf(history, 0)));
    }

    method UpdateEvaluationRun(previous: EvaluationRun, next: EvaluationRun) returns (err: Option<IngestError>)
      modifies this`run
      ensures (State(), err) == UpdateSpec(old(State()), previous, next)
    {
      if !ValidTransition(previous, next) {
        return Some(ErrStoreConflict);
      }
      if run != previous {
        return Some(ErrStoreConflict);
      }
      run := next;
      err := None;
    }
  }
}
