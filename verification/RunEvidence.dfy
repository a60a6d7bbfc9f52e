/** What a run's stored evidence and history mean at every moment of every execution of the ingest protocol. */
module RunEvidence {
  import opened Bounded
  import opened Ordering
  import opened BehaviorOperational
  import opened Aggregate
  import opened Collector
  import opened Evidence
  import opened Conservation
  import opened Runs
  import opened Counting
  import opened Retention
  import opened Ingest
  import opened Protocol
  import opened ProtocolSafety
  import opened ProtocolRuns

  /** A reduction that ingest alone has advanced: complete exactly while both halves have counted the same records, and
      then with the same durations and statuses. */
  ghost predicate FullyIngested(x: Reduced) {
    && (x.collector.complete <==> x.collector.observations == x.aggregate.recordCount)
    && (x.collector.complete ==> Conserves(x))
  }

  lemma EmptyIsFullyIngested(environment: string)
    ensures FullyIngested(Empty(environment))
  {
    hide Conserves;
    EmptyConserves(environment);
  }

  lemma ReduceKeepsIngested(x: Reduced, r: Record, f: Facts)
    requires ValidReduced(x) && FullyIngested(x) && Reduce(x, r, f).Ok?
    ensures FullyIngested(Reduce(x, r, f).value)
  {
    hide Conserves, Reduce, SoundAggregate, ValidCollector, IdentitiesValid;
    CompleteMeansEqual(x, r, f);
    if Reduce(x, r, f).value.collector.complete {
      ReduceConserves(x, r, f);
    }
  }

  lemma {:induction false} FoldStaysIngested(start: Reduced, log: seq<Request>)
    requires ValidReduced(start) && FullyIngested(start) && FoldLog(start, log).Ok?
    ensures ValidReduced(FoldLog(start, log).value) && FullyIngested(FoldLog(start, log).value)
  {
    hide ValidReduced, FullyIngested, Reduce;
    if log != [] {
      var init, last := log[..|log| - 1], log[|log| - 1];
      FoldStaysIngested(start, init);
      ReduceKeepsValid(FoldLog(start, init).value, last.record, last.facts);
      ReduceKeepsIngested(FoldLog(start, init).value, last.record, last.facts);
    }
  }

  /** Stored evidence whose snapshot passes its validator, at most 512 behaviors in bijection with their fingerprints and
      with counts that add up, beside an aggregate that agrees with it and passes its own validator unless undated. */
  ghost predicate SoundEvidence(e: StoredEvidence, environment: string) {
    && RestoredSnapshotValid(e.snapshot, |e.snapshot.entries|) && |e.snapshot.entries| <= 512 && PairAgrees(e.aggregate, e.snapshot)
    && e.aggregate.environment == environment && (ValidAggregate(e.aggregate) <==> Dated(e.aggregate))
  }

  /** Complete exactly when the two halves counted the same records, and then the behaviors add up to the aggregate whenever
      their tokens fit. */
  ghost predicate Conserved(e: StoredEvidence) {
    && (e.snapshot.complete <==> e.snapshot.observations == e.aggregate.recordCount)
    && (e.snapshot.complete ==>
          && (AddEntries(e.snapshot.entries).Some? <==> TokensFit(TokenTotals(e.snapshot.entries)))
          && (AddEntries(e.snapshot.entries).Some? ==>
                && AddEntries(e.snapshot.entries).value.durations == e.aggregate.durations
                && AddEntries(e.snapshot.entries).value.spanStatus == e.aggregate.statuses))
  }

  lemma ReducedIsSound(x: Reduced)
    requires ValidReduced(x)
    ensures SoundEvidence(EvidenceOf(x), x.aggregate.environment)
  {
    hide ValidCollector, IdentitiesValid, CountsAgree, SoundAggregate, ValidAggregate, Dated, RestoredSnapshotValid, SortedEntries;
    ValidIffDated(x.aggregate);
    StoredSnapshotReadsBack(x.collector);
    PreparedPairAgrees(x);
  }

  lemma IngestedIsConserved(x: Reduced)
    requires ValidReduced(x) && FullyIngested(x)
    ensures Conserved(EvidenceOf(x))
  {
    hide Conserves, ValidReduced, AddEntries, TokenTotals, TokensFit, SortedEntries;
    if x.collector.complete {
      SnapshotSumIsAggregate(x);
    }
  }

  lemma StoredFoldIsSound(o: Origin, s: System)
    requires StoreInvariant(o, s)
    ensures s.d.evidence.Some? ==> SoundEvidence(s.d.evidence.value, s.d.run.environment)
  {
    hide ValidReduced, SoundEvidence, IsBlock, LogSequenced, CursorIsLog, EvidenceOf, FedByTimely;
    FoldFacts(o, s.log);
    ReducedIsSound(FoldLog(o.start, s.log).value);
  }

  lemma StoredFoldIsConserved(o: Origin, s: System)
    requires StoreInvariant(o, s) && FullyIngested(o.start)
    ensures s.d.evidence.Some? ==> Conserved(s.d.evidence.value)
  {
    hide FullyIngested, ValidReduced, Conserved, IsBlock, LogSequenced, CursorIsLog, EvidenceOf, FedByTimely;
    OriginIsValid(o);
    FoldStaysIngested(o.start, s.log);
    IngestedIsConserved(FoldLog(o.start, s.log).value);
  }

  lemma UntouchedIsIngested(o: Origin)
    requires ValidOrigin(o) && !o.stored
    ensures FullyIngested(o.start)
  {
    hide Conserves;
    EmptyIsFullyIngested(o.start.aggregate.environment);
  }

  /** At every moment of every execution, whatever the run began with, the stored evidence is sound; where the run began with
      nothing, or with evidence that ingest alone had advanced, it is conserved as well. Evidence stored before operational
      summaries were is not: its backfilled behaviors say nothing of the durations its aggregate counted. */
  lemma EvidenceIsAlwaysSound(o: Origin, states: seq<System>, actions: seq<Action>, i: nat)
    requires Execution(o, states, actions) && i < |states|
    ensures states[i].d.evidence.Some? ==> SoundEvidence(states[i].d.evidence.value, states[i].d.run.environment)
    ensures states[i].d.evidence.Some? && (FullyIngested(o.start) || !o.stored) ==> Conserved(states[i].d.evidence.value)
  {
    hide *;
    InvariantAt(o, states, actions, i);
    InvariantSays(o, states[i], 0);
    StoredFoldIsSound(o, states[i]);
    OriginSays(o, states[i]);
    if !o.stored {
      UntouchedIsIngested(o);
    }
    if FullyIngested(o.start) {
      StoredFoldIsConserved(o, states[i]);
    }
  }

  // ---- History ------------------------------------------------------------------------------------------------

  /** What a reader is told about the history of a run that started from `base` records and accepted n more. */
  function ToldAfter(base: nat, n: nat): ObservationHistory {
    var kept := Min(n, MAX_RETAINED_OBSERVATIONS);
    if base == 0 && n <= MAX_RETAINED_OBSERVATIONS then ObservationHistory(HistoryComplete, kept)
    else if n == 0 then ObservationHistory(HistoryUnavailable, 0)
    else ObservationHistory(HistoryPartial, kept)
  }

  lemma BlockTells(t: Retained, base: nat, accepted: seq<Observation>, recordCount: U64)
    requires IsBlock(t, base + 1, accepted) && recordCount == base + |accepted|
    ensures HistoryOf(t.history, recordCount) == ToldAfter(base, |accepted|)
  {
  }

  lemma BlockOfStore(o: Origin, s: System)
    requires StoreInvariant(o, s)
    ensures IsBlock(s.d.retained, o.start.aggregate.recordCount + 1, Observations(o.start, s.log))
    ensures |Observations(o.start, s.log)| == |s.log|
    ensures s.d.evidence.Some? ==> s.d.evidence.value.aggregate.recordCount == o.start.aggregate.recordCount + |s.log|
  {
    hide ValidReduced, IsBlock, LogSequenced, CursorIsLog, SnapshotOf, FoldLog, FedByTimely;
    FoldFacts(o, s.log);
  }

  ghost predicate ToldRightly(o: Origin, s: System, recordCount: U64) {
    recordCount == o.start.aggregate.recordCount + |s.log| ==>
      HistoryOf(s.d.retained.history, recordCount) == ToldAfter(o.start.aggregate.recordCount, |s.log|)
  }

  /** The history is called complete exactly when the run began here and nothing has been dropped, unavailable exactly when
      nothing was retained of a run that had records, and counts the rows kept. */
  lemma HistoryIsAlwaysTold(o: Origin, states: seq<System>, actions: seq<Action>, i: nat, recordCount: U64)
    requires Execution(o, states, actions) && i < |states|
    ensures ToldRightly(o, states[i], recordCount)
  {
    hide *;
    InvariantAt(o, states, actions, i);
    InvariantSays(o, states[i], 0);
    StoreTells(o, states[i], recordCount);
  }

  lemma StoreTells(o: Origin, s: System, recordCount: U64)
    requires StoreInvariant(o, s)
    ensures ToldRightly(o, s, recordCount)
  {
    hide StoreInvariant, IsBlock, HistoryOf, ToldAfter, Observations;
    BlockOfStore(o, s);
    if recordCount == o.start.aggregate.recordCount + |s.log| {
      BlockTells(s.d.retained, o.start.aggregate.recordCount, Observations(o.start, s.log), recordCount);
    }
  }

  ghost predicate ObservedAs(obs: seq<Observation>, q: Request) {
    exists b :: Observation(q.sequence, q.record.fingerprintId, q.record.traceId, q.record.spanId, q.record.parentSpanId, b) in obs
  }

  lemma {:induction false} EveryRequestObserved(start: Reduced, log: seq<Request>, k: nat)
    requires k < |log|
    ensures ObservedAs(Observations(start, log), log[k])
  {
    hide FoldLog;
    var init, last := log[..|log| - 1], log[|log| - 1];
    if k < |init| {
      EveryRequestObserved(start, init, k);
      assert log[k] == init[k];
    } else {
      var o := Observations(start, log)[|log| - 1];
      assert o == Observation(last.sequence, last.record.fingerprintId, last.record.traceId, last.record.spanId,
                              last.record.parentSpanId, o.newBehavior);
    }
  }

  lemma KeptAll(accepted: seq<Observation>)
    requires |accepted| <= MAX_RETAINED_OBSERVATIONS
    ensures Kept(accepted) == accepted
  {
  }

  /** Where a comparison's correlation state is complete, the run began with nothing and the rows the paging loop returns
      include the spans of every request it accepted. */
  ghost predicate CompleteSeesEverything(o: Origin, s: System, recordCount: U64) {
    recordCount == o.start.aggregate.recordCount + |s.log|
    && CorrelationStateFor(HistoryOf(s.d.retained.history, recordCount)) == CorrelationComplete ==>
      && o.start.aggregate.recordCount == 0
      && forall k {:trigger s.log[k]} | 0 <= k < |s.log| :: ObservedAs(Kept(Observations(o.start, s.log)), s.log[k])
  }

  lemma ToldSeesEverything(o: Origin, s: System, recordCount: U64)
    requires ToldRightly(o, s, recordCount)
    ensures CompleteSeesEverything(o, s, recordCount)
  {
    hide Observations, Kept, ObservedAs, HistoryOf;
    if recordCount == o.start.aggregate.recordCount + |s.log|
       && CorrelationStateFor(HistoryOf(s.d.retained.history, recordCount)) == CorrelationComplete
    {
      ObservationsLength(o.start, s.log);
      KeptAll(Observations(o.start, s.log));
      forall k {:trigger s.log[k]} | 0 <= k < |s.log| ensures ObservedAs(Kept(Observations(o.start, s.log)), s.log[k]) {
        EveryRequestObserved(o.start, s.log, k);
      }
    }
  }

  /** The counting fold is applied only to a history that holds every record the run ever accepted. */
  lemma CompleteCorrelationSeesEverything(o: Origin, states: seq<System>, actions: seq<Action>, i: nat, recordCount: U64)
    requires Execution(o, states, actions) && i < |states|
    ensures CompleteSeesEverything(o, states[i], recordCount)
  {
    hide *;
    HistoryIsAlwaysTold(o, states, actions, i, recordCount);
    ToldSeesEverything(o, states[i], recordCount);
  }

  /** What a comparison takes from the history of a run that began with `base` records and accepted n: complete if it began
      here and nothing was dropped, unavailable if nothing was retained of a run with records, partial otherwise. */
  ghost predicate CorrelationToldRightly(o: Origin, s: System, recordCount: U64) {
    var base, n := o.start.aggregate.recordCount, |s.log|;
    recordCount == base + n ==>
      CorrelationStateFor(HistoryOf(s.d.retained.history, recordCount)) ==
      if base == 0 && n <= 4096 then CorrelationComplete else if n == 0 then CorrelationUnavailable else CorrelationPartial
  }

  lemma CorrelationIsAlwaysTold(o: Origin, states: seq<System>, actions: seq<Action>, i: nat, recordCount: U64)
    requires Execution(o, states, actions) && i < |states|
    ensures CorrelationToldRightly(o, states[i], recordCount)
  {
    hide *;
    HistoryIsAlwaysTold(o, states, actions, i, recordCount);
    CorrelationFollows(o, states[i], recordCount);
  }

  lemma CorrelationFollows(o: Origin, s: System, recordCount: U64)
    requires ToldRightly(o, s, recordCount)
    ensures CorrelationToldRightly(o, s, recordCount)
  {
    hide HistoryOf;
  }

  // ---- What a commit and a status say -------------------------------------------------------------------------

  /** The history a successful commit reports is that of the run with its record in the log. */
  ghost predicate CommitTellsHistory(o: Origin, s: System, r: Result<CommitResult, IngestError>) {
    r.Ok? ==> r.value.history == ToldAfter(o.start.aggregate.recordCount, |s.log| + if r.value.alreadyCommitted then 0 else 1)
  }

  lemma WrittenHistory(d: Durable, c: Commit)
    requires Writes(d, c)
    ensures CommitSpec(d, c).1.Ok? && !CommitSpec(d, c).1.value.alreadyCommitted
    ensures CommitSpec(d, c).1.value.history == HistoryOf(CommitSpec(d, c).0.retained.history, 0)
  {
    hide StateOf, StoredOutcome, StaleError, Retain, PairAgrees, HistoryOf, ValidDigest;
  }

  lemma ReplayedHistory(d: Durable, c: Commit)
    ensures CommitSpec(d, c).1.Ok? && CommitSpec(d, c).1.value.alreadyCommitted ==>
              StateOf(d).Ok? && CommitSpec(d, c).1.value.history == HistoryOf(d.retained.history, StateOf(d).value.recordCount)
  {
    hide StateOf, StoredOutcome, StaleError, Retain, PairAgrees, HistoryOf, ValidDigest;
  }

  lemma BlockAlwaysTells(t: Retained, base: nat, accepted: seq<Observation>, recordCount: U64)
    requires IsBlock(t, base + 1, accepted) && accepted != []
    ensures HistoryOf(t.history, recordCount) == ToldAfter(base, |accepted|)
  {
  }

  lemma CommitHistory(o: Origin, s: System, q: Request, commit: Commit)
    requires StoreInvariant(o, s) && ClientInvariant(o, s, Prepared(q, commit))
    ensures CommitTellsHistory(o, s, CommitSpec(s.d, commit).1)
  {
    hide StoreInvariant, ClientInvariant, CommitSpec, IsBlock, HistoryOf, ToldAfter, Observations, Writes, Accepts, StateOf, LogSequenced,
         EvidenceIsFold;
    OriginSays(o, s);
    ObservationsLength(o.start, s.log);
    AcceptsSays(s.d, q, commit);
    if CommitSpec(s.d, commit).1.Ok? {
      if CommitSpec(s.d, commit).1.value.alreadyCommitted {
        ReplayedHistory(s.d, commit);
        StateRecordCount(o, s);
        BlockTells(s.d.retained, o.start.aggregate.recordCount, Observations(o.start, s.log), StateOf(s.d).value.recordCount);
      } else {
        CommitLandsExactly(o, s, q, commit);
        WrittenHistory(s.d, commit);
        var t := System(CommitSpec(s.d, commit).0, s.clients, s.log + [q]);
        AcceptedKeepsStore(o, s, t, q, commit);
        OriginSays(o, t);
        ObservationsLength(o.start, t.log);
        BlockAlwaysTells(t.d.retained, o.start.aggregate.recordCount, Observations(o.start, t.log), 0);
      }
    }
  }

  lemma StateRecordCount(o: Origin, s: System)
    requires StoreInvariant(o, s) && StateOf(s.d).Ok?
    ensures StateOf(s.d).value.recordCount == o.start.aggregate.recordCount + |s.log|
  {
    hide StoreInvariant, StateOf, Timely;
    StateOfStore(o, s);
  }

  /** In every execution. */
  lemma CommitsTellHistory(o: Origin, states: seq<System>, actions: seq<Action>, i: nat, id: nat, q: Request, commit: Commit)
    requires Execution(o, states, actions) && i < |states| && id in states[i].clients && states[i].clients[id] == Prepared(q, commit)
    ensures CommitTellsHistory(o, states[i], CommitSpec(states[i].d, commit).1)
  {
    hide *;
    InvariantAt(o, states, actions, i);
    InvariantSays(o, states[i], id);
    CommitHistory(o, states[i], q, commit);
  }

  /** The ingest state's counts are the reduction's. */
  lemma StateCounts(o: Origin, s: System)
    requires StoreInvariant(o, s) && StateOf(s.d).Ok?
    ensures FoldLog(o.start, s.log).Ok?
    ensures var x, st := FoldLog(o.start, s.log).value, StateOf(s.d).value;
            && st.next == o.start.aggregate.recordCount + |s.log| + 1 && st.recordCount == x.aggregate.recordCount
            && st.behaviorObservations == x.collector.observations && st.distinctBehaviors == |x.collector.entries|
            && st.behaviorComplete == x.collector.complete
  {
    hide StoreInvariant, StoredOutcome, Timely, FoldLog, ValidDigest, SortedEntries, IsBlock, LogSequenced, FedByTimely;
    OriginSays(o, s);
    FoldSays(o, s);
    StoredOutcomeHere(o, s);
    StateOfStore(o, s);
    FoldFacts(o, s.log);
    StartIsEmpty(o, s);
    SortedIdsListEntries(FoldLog(o.start, s.log).value.collector);
  }

  lemma StartIsEmpty(o: Origin, s: System)
    requires StoreInvariant(o, s)
    ensures FoldLog(o.start, s.log).Ok?
    ensures s.d.evidence.None? ==> FoldLog(o.start, s.log).value == Empty(o.start.aggregate.environment)
  {
    hide ValidReduced, IsBlock, LogSequenced, CursorIsLog, EvidenceOf, FedByTimely;
  }
}
