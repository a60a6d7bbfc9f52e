/** platform/controlplane.go's IngestDecisionRecord as the sequence of store operations it is, and how one undisturbed
    call relates to the interleaved protocol. */
module ControlPlane {
  import opened Bounded
  import opened Ordering
  import opened BehaviorOperational
  import opened Aggregate
  import opened Collector
  import opened Evidence
  import opened Runs
  import opened Counting
  import opened Retention
  import opened Ingest
  import opened Protocol
  import opened ProtocolSafety

  /** The rows and the reply one call leaves when nothing else touches the run meanwhile. */
  ghost function IngestAlone(d: Durable, q: Request): (Durable, Reply) {
    match CheckRun(q, d.run)
    case Answered(_, reply) => (d, reply)
    case _ =>
      match Admit(q, d.run, StateOf(d))
      case Answered(_, reply) => (d, reply)
      case _ =>
        match Gathered(q, q.sequence, StoredOutcome(d), d.run.environment)
        case Prepared(_, commit) => (CommitSpec(d, commit).0, ReplyTo(CommitSpec(d, commit).1))
        case Answered(_, reply) => (d, reply)
        case _ => (d, Refused(ErrStoreCorrupt))
  }

  /** currentEvidence: the stored evidence as reducers again, or empty ones. */
  method CurrentEvidence(stored: Option<StoredEvidence>, environment: string)
    returns (err: Option<IngestError>, aggregate: EvaluationAggregate, collector: BehaviorCollector)
    ensures fresh(collector)
    ensures err.Some? ==> Current(stored, environment) == Err(err.value)
    ensures err.None? ==> Current(stored, environment) == Ok(Reduced(aggregate, collector.State()))
  {
    err := None;
    if stored.None? {
      aggregate := NewAggregate(environment);
      collector := new BehaviorCollector(environment);
      return;
    }
    aggregate := stored.value.aggregate;
    var ok;
    ok, collector := CollectorFromSnapshot(stored.value.snapshot);
    if !ok {
      RestoreErrorIsCorrupt(stored.value.snapshot);
      err := Some(ErrStoreCorrupt);
    }
  }

  lemma RestoreErrorIsCorrupt(s: BehaviorSnapshot)
    ensures Restored(s).Err? ==> Restored(s) == Err(ErrStoreCorrupt)
  {
    hide Indexed;
  }

  /** The admission rules up to the point where the record is to be applied. */
  method AdmitRequest(q: Request, state: IngestState) returns (reply: Option<Reply>)
    ensures forall run :: Admit(q, run, Ok(state)) ==
                          if reply.Some? then Answered(q, reply.value) else ReadingEvidence(q, run, q.sequence, NOTHING_READ, UNMARKED)
  {
    if q.sequence == state.next {
      if !ValidFacts(q.facts) {
        return Some(Refused(ErrInvalidRecord));
      }
      return None;
    }
    if q.sequence < MAX_UINT64 && q.sequence + 1 == state.next {
      if state.digest != "" && state.digest == q.digest {
        return Some(Success(true, state.next, state.recordCount, state.behaviorComplete));
      }
      return Some(Refused(ErrSequence));
    }
    return Some(Refused(ErrSequence));
  }

  /** applyRecord's folding half: both reducers advance, a saturated collector does not refuse, and the observation is
      projected before anything is written. */
  method FoldRecord(q: Request, before: EvaluationAggregate, collector: BehaviorCollector)
    returns (err: Option<IngestError>, commit: Commit)
    modifies collector
    ensures Prepare(q, q.sequence, Ok(Reduced(before, old(collector.State())))) ==
            if err.Some? then Answered(q, Refused(err.value)) else Prepared(q, commit)
  {
    commit := Commit(q.sequence, q.sequence, q.digest, before, BehaviorSnapshot("", 0, [], false), Observation(0, "", "", "", "", false));
    var newBehavior := q.record.fingerprintId !in collector.entries;
    var aggregate := AddRecord(before, q.record);
    if aggregate.Err? {
      return Some(aggregate.error), commit;
    }
    var observed := collector.ObserveOperational(q.record, q.facts);
    if observed.Some? && observed != Some(ErrBehaviorCapacity) {
      return Some(observed.value), commit;
    }
    var snapshot := collector.Snapshot();
    if !Observable(q) {
      return Some(ErrInvalidObservation), commit;
    }
    var observation := Observation(q.sequence, q.record.fingerprintId, q.record.traceId, q.record.spanId, q.record.parentSpanId, newBehavior);
    return None, Commit(q.sequence, q.sequence, q.digest, aggregate.value, snapshot, observation);
  }

  method IngestDecisionRecord(store: EvaluationStore, q: Request) returns (reply: Reply)
    modifies store
    ensures (store.State(), reply) == IngestAlone(old(store.State()), q)
  {
    hide StoredOutcome, Prepare, CommitSpec, StateFrom, Current, Admit;
    var run := store.run;
    if run.status != RunRunning {
      return Refused(ErrEvaluationState);
    }
    if q.profile != run.profile {
      return Refused(ErrProfileMismatch);
    }
    var state := store.EvaluationIngestState();
    if state.Err? {
      AdmitError(q, run, state.error);
      return Refused(state.error);
    }
    var admitted := AdmitRequest(q, state.value);
    if admitted.Some? {
      return admitted.value;
    }
    var stored := store.LoadEvidence();
    if stored.Err? {
      return Refused(stored.error);
    }
    var err, aggregate, collector := CurrentEvidence(stored.value, run.environment);
    if err.Some? {
      PrepareError(q, err.value);
      return Refused(err.value);
    }
    var failed, commit := FoldRecord(q, aggregate, collector);
    if failed.Some? {
      return Refused(failed.value);
    }
    var committed := store.CommitEvaluationIngest(commit);
    reply := ReplyTo(committed);
  }

  lemma AdmitError(q: Request, run: EvaluationRun, e: IngestError)
    ensures Admit(q, run, Err(e)) == Answered(q, Refused(e))
  {
  }

  lemma PrepareError(q: Request, e: IngestError)
    ensures Prepare(q, q.sequence, Err(e)) == Answered(q, Refused(e))
  {
  }

  // ---- One undisturbed call is a run of the protocol ----------------------------------------------------------

  ghost function Iterate(d: Durable, now: nat, c: Client, n: nat): (Durable, Client)
    decreases n
  {
    if n == 0 then (d, c) else Iterate(ClientStep(d, now, c).0, now, ClientStep(d, now, c).1, n - 1)
  }

  /** Some number of steps of this client alone leads from one state to the other. */
  ghost predicate Leads(d: Durable, now: nat, c: Client, after: Durable, e: Client) {
    exists n :: Iterate(d, now, c, n) == (after, e)
  }

  lemma {:induction false} IterateAdds(d: Durable, now: nat, c: Client, m: nat, n: nat)
    ensures Iterate(d, now, c, m + n) == Iterate(Iterate(d, now, c, m).0, now, Iterate(d, now, c, m).1, n)
    decreases m
  {
    hide ClientStep;
    if m > 0 {
      IterateAdds(ClientStep(d, now, c).0, now, ClientStep(d, now, c).1, m - 1, n);
    }
  }

  lemma LeadsOn(d: Durable, now: nat, c: Client, d1: Durable, c1: Client, d2: Durable, c2: Client)
    requires Leads(d, now, c, d1, c1) && Leads(d1, now, c1, d2, c2)
    ensures Leads(d, now, c, d2, c2)
  {
    hide ClientStep;
    var m :| Iterate(d, now, c, m) == (d1, c1);
    var n :| Iterate(d1, now, c1, n) == (d2, c2);
    IterateAdds(d, now, c, m, n);
  }

  lemma LeadsOneStep(d: Durable, now: nat, c: Client)
    ensures Leads(d, now, c, ClientStep(d, now, c).0, ClientStep(d, now, c).1)
  {
    hide ClientStep;
    assert Iterate(d, now, c, 1) == (ClientStep(d, now, c).0, ClientStep(d, now, c).1) by {
      assert Iterate(ClientStep(d, now, c).0, now, ClientStep(d, now, c).1, 0) == (ClientStep(d, now, c).0, ClientStep(d, now, c).1);
    }
  }

  lemma LeadsNowhere(d: Durable, now: nat, c: Client)
    ensures Leads(d, now, c, d, c)
  {
    assert Iterate(d, now, c, 0) == (d, c);
  }

  function Statements(d: Durable, n: nat): Reads {
    if n == 0 then NOTHING_READ else ReadNext(Statements(d, n - 1), d)
  }

  /** Two statements find no evidence, five read it. */
  lemma StatementsReadAll(d: Durable)
    ensures var n := if d.evidence.None? then 2 else 5;
            Statements(d, n) == ReadAll(d) && forall k: nat | k < n :: !Finished(Statements(d, k))
  {
    assert Statements(d, 0) == NOTHING_READ;
    var r1 := Statements(d, 1);
    var r2 := Statements(d, 2);
    if d.evidence.Some? {
      var r3 := Statements(d, 3);
      var r4 := Statements(d, 4);
    }
  }

  lemma {:induction false} CursorStatements(d: Durable, now: nat, q: Request, run: EvaluationRun, row: Option<Cursor>, start: Marks, n: nat)
    returns (at: Marks)
    requires forall k: nat | k < n :: !Finished(Statements(d, k))
    ensures Leads(d, now, ReadingCursor(q, run, row, NOTHING_READ, start), d, ReadingCursor(q, run, row, Statements(d, n), at))
  {
    hide Leads, ReadNext, Finished, Marked;
    var begun := ReadingCursor(q, run, row, NOTHING_READ, start);
    if n == 0 {
      at := start;
      LeadsNowhere(d, now, begun);
    } else {
      var before := CursorStatements(d, now, q, run, row, start, n - 1);
      at := Marked(before, Statements(d, n - 1), now);
      LeadsOneStep(d, now, ReadingCursor(q, run, row, Statements(d, n - 1), before));
      LeadsOn(d, now, begun, d, ReadingCursor(q, run, row, Statements(d, n - 1), before), d, ReadingCursor(q, run, row, Statements(d, n), at));
    }
  }

  lemma {:induction false} EvidenceStatements(d: Durable, now: nat, q: Request, run: EvaluationRun, next: U64, n: nat) returns (at: Marks)
    requires forall k: nat | k < n :: !Finished(Statements(d, k))
    ensures Leads(d, now, ReadingEvidence(q, run, next, NOTHING_READ, UNMARKED), d, ReadingEvidence(q, run, next, Statements(d, n), at))
  {
    hide Leads, ReadNext, Finished, Marked;
    var begun := ReadingEvidence(q, run, next, NOTHING_READ, UNMARKED);
    if n == 0 {
      at := UNMARKED;
      LeadsNowhere(d, now, begun);
    } else {
      var before := EvidenceStatements(d, now, q, run, next, n - 1);
      at := Marked(before, Statements(d, n - 1), now);
      LeadsOneStep(d, now, ReadingEvidence(q, run, next, Statements(d, n - 1), before));
      LeadsOn(d, now, begun, d, ReadingEvidence(q, run, next, Statements(d, n - 1), before), d, ReadingEvidence(q, run, next, Statements(d, n), at));
    }
  }

  lemma ReadAllFinished(d: Durable)
    ensures Finished(ReadAll(d))
  {
  }

  /** A client that has its cursor row and reads the evidence undisturbed. */
  lemma CursorRest(d: Durable, now: nat, q: Request, run: EvaluationRun, row: Option<Cursor>, start: Marks)
    requires run.environment == d.run.environment
    ensures Leads(d, now, ReadingCursor(q, run, row, NOTHING_READ, start), d, Admit(q, run, StateFrom(row, StoredOutcome(d))))
  {
    hide Leads, Statements, ReadAll, ReadNext, EvidenceRead, StateFrom, Admit, Finished;
    StatementsReadAll(d);
    ReadAllFinished(d);
    var begun := ReadingCursor(q, run, row, NOTHING_READ, start);
    var at := CursorStatements(d, now, q, run, row, start, if d.evidence.None? then 2 else 5);
    var done := ReadingCursor(q, run, row, ReadAll(d), at);
    LeadsOneStep(d, now, done);
    LeadsOn(d, now, begun, d, done, d, Admit(q, run, StateFrom(row, StoredOutcome(d))));
  }

  lemma CursorPhase(d: Durable, now: nat, q: Request)
    ensures Leads(d, now, RunSeen(q, d.run), d, Admit(q, d.run, StateOf(d)))
  {
    hide Leads, StoredOutcome, StateFrom, Admit;
    LeadsOneStep(d, now, RunSeen(q, d.run));
    var begun := ReadingCursor(q, d.run, d.cursor, NOTHING_READ, UNMARKED.(row := now));
    CursorRest(d, now, q, d.run, d.cursor, begun.at);
    LeadsOn(d, now, RunSeen(q, d.run), d, begun, d, Admit(q, d.run, StateOf(d)));
  }

  lemma EvidencePhase(d: Durable, now: nat, q: Request, next: U64)
    ensures Leads(d, now, ReadingEvidence(q, d.run, next, NOTHING_READ, UNMARKED), d, Gathered(q, next, StoredOutcome(d), d.run.environment))
  {
    hide Leads, Statements, ReadAll, ReadNext, EvidenceRead, Gathered, Finished;
    StatementsReadAll(d);
    ReadAllFinished(d);
    var begun := ReadingEvidence(q, d.run, next, NOTHING_READ, UNMARKED);
    var at := EvidenceStatements(d, now, q, d.run, next, if d.evidence.None? then 2 else 5);
    var done := ReadingEvidence(q, d.run, next, ReadAll(d), at);
    LeadsOneStep(d, now, done);
    LeadsOn(d, now, begun, d, done, d, Gathered(q, next, StoredOutcome(d), d.run.environment));
  }

  lemma RunPhase(d: Durable, now: nat, q: Request)
    ensures Leads(d, now, Submitted(q), d, CheckRun(q, d.run))
    ensures CheckRun(q, d.run).Answered? || CheckRun(q, d.run) == RunSeen(q, d.run)
  {
    hide Leads;
    LeadsOneStep(d, now, Submitted(q));
  }

  lemma AdmitShape(q: Request, run: EvaluationRun, state: Result<IngestState, IngestError>)
    ensures (Admit(q, run, state).Answered? && Admit(q, run, state).q == q)
            || Admit(q, run, state) == ReadingEvidence(q, run, q.sequence, NOTHING_READ, UNMARKED)
  {
  }

  lemma GatheredShape(q: Request, outcome: Result<Option<StoredEvidence>, IngestError>, environment: string)
    ensures Gathered(q, q.sequence, outcome, environment).Answered? || Gathered(q, q.sequence, outcome, environment).Prepared?
    ensures Gathered(q, q.sequence, outcome, environment).q == q
  {
    hide Reduce, Current;
  }

  /** The protocol's statements, run for one client with nothing in between, are exactly one call of
      IngestDecisionRecord. */
  lemma UndisturbedCall(d: Durable, now: nat, q: Request)
    ensures Leads(d, now, Submitted(q), IngestAlone(d, q).0, Answered(q, IngestAlone(d, q).1))
  {
    hide Leads, Admit, Gathered, CommitSpec, StateOf, StoredOutcome;
    RunPhase(d, now, q);
    if !CheckRun(q, d.run).Answered? {
      CursorPhase(d, now, q);
      LeadsOn(d, now, Submitted(q), d, RunSeen(q, d.run), d, Admit(q, d.run, StateOf(d)));
      AdmitShape(q, d.run, StateOf(d));
      if !Admit(q, d.run, StateOf(d)).Answered? {
        var gathered := Gathered(q, q.sequence, StoredOutcome(d), d.run.environment);
        EvidencePhase(d, now, q, q.sequence);
        LeadsOn(d, now, Submitted(q), d, Admit(q, d.run, StateOf(d)), d, gathered);
        GatheredShape(q, StoredOutcome(d), d.run.environment);
        if gathered.Prepared? {
          LeadsOneStep(d, now, gathered);
          LeadsOn(d, now, Submitted(q), d, gathered, IngestAlone(d, q).0, Answered(q, IngestAlone(d, q).1));
        }
      }
    }
  }

  // ---- What a call is answered --------------------------------------------------------------------------------

  /** The request is one a run in this state accepts: it is running, its evidence reads back, and the request is the next,
      well formed and reducible. */
  ghost predicate Acceptable(o: Origin, s: System, q: Request) {
    && s.d.run.status == RunRunning && Timely(o, s.log) && q.profile == s.d.run.profile
    && q.sequence == CursorOf(o, s.log) && q.sequence < MAX_UINT64
    && ValidFacts(q.facts) && ValidDigest(q.digest)
    && FoldLog(o.start, s.log).Ok? && Reduce(FoldLog(o.start, s.log).value, q.record, q.facts).Ok? && Observable(q)
  }

  predicate IsApplied(r: Reply) {
    r.Success? && !r.replayed
  }

  /** Undisturbed, a call is answered as applied exactly on the requests the run's state admits: none of the store's other
      guards, about stale or divergent rows, ever refuses one, and the only evidence found corrupt is that of a run whose
      first record stood before the zero time. */
  lemma AppliedIffAcceptable(o: Origin, s: System, q: Request)
    requires StoreInvariant(o, s) && CursorOf(o, s.log) <= MAX_UINT64
    ensures IsApplied(IngestAlone(s.d, q).1) <==> Acceptable(o, s, q)
  {
    hide *;
    StateOfStore(o, s);
    StoredOutcomeHere(o, s);
    CurrentIsFold(o, s);
    if !Timely(o, s.log) {
      UntimelyRefused(s.d, q);
      AcceptableIsTimely(o, s, q);
      return;
    }
    var x := FoldLog(o.start, s.log).value;
    AloneOutcome(s.d, q, StateOf(s.d).value, s.d.evidence, x);
    AcceptableMeans(o, s, q, x);
    if ReachesCommit(s.d, q, CursorOf(o, s.log), x) {
      ReachedReduces(s.d, q, CursorOf(o, s.log), x);
      var commit := CommitFor(q, q.sequence, x, Reduce(x, q.record, q.facts).value);
      CurrentIsPrepared(o, s, q, x);
      CommitLandsExactly(o, s, q, commit);
      AcceptsSays(s.d, q, commit);
      ReplySays(CommitSpec(s.d, commit).1);
      CommitForSays(q, x, Reduce(x, q.record, q.facts).value);
    }
  }

  lemma UntimelyRefused(d: Durable, q: Request)
    requires StateOf(d).Err?
    ensures !IsApplied(IngestAlone(d, q).1)
  {
    hide StateOf, StoredOutcome, Gathered, CommitSpec;
  }

  lemma AcceptableIsTimely(o: Origin, s: System, q: Request)
    ensures Acceptable(o, s, q) ==> Timely(o, s.log)
  {
    hide Timely, Reduce, FoldLog, ValidFacts, ValidDigest, Observable, CursorOf;
  }

  /** Everything checked before the transaction lets the request through. */
  ghost predicate ReachesCommit(d: Durable, q: Request, next: nat, x: Reduced) {
    && d.run.status == RunRunning && q.profile == d.run.profile && q.sequence == next && ValidFacts(q.facts)
    && Reduce(x, q.record, q.facts).Ok? && Observable(q)
  }

  lemma ReachedReduces(d: Durable, q: Request, next: nat, x: Reduced)
    requires ReachesCommit(d, q, next, x)
    ensures Reduce(x, q.record, q.facts).Ok? && d.run.status == RunRunning && q.sequence == next
  {
    hide Reduce;
  }

  lemma AloneOutcome(d: Durable, q: Request, state: IngestState, evidence: Option<StoredEvidence>, x: Reduced)
    requires StateOf(d) == Ok(state) && StoredOutcome(d) == Ok(evidence) && Current(evidence, d.run.environment) == Ok(x)
    ensures !ReachesCommit(d, q, state.next, x) ==> !IsApplied(IngestAlone(d, q).1)
    ensures ReachesCommit(d, q, state.next, x) ==>
              IngestAlone(d, q).1 == ReplyTo(CommitSpec(d, CommitFor(q, q.sequence, x, Reduce(x, q.record, q.facts).value)).1)
  {
    hide StateOf, StoredOutcome, Current, Reduce, CommitSpec, ValidFacts, CommitFor, Observable;
  }

  lemma AcceptableMeans(o: Origin, s: System, q: Request, x: Reduced)
    requires FoldLog(o.start, s.log) == Ok(x) && Timely(o, s.log)
    ensures Acceptable(o, s, q) <==> ReachesCommit(s.d, q, CursorOf(o, s.log), x) && q.sequence < MAX_UINT64 && ValidDigest(q.digest)
  {
    hide Reduce, FoldLog, ValidFacts, ValidDigest, Observable;
  }

  lemma CurrentIsPrepared(o: Origin, s: System, q: Request, x: Reduced)
    requires StoreInvariant(o, s) && FoldLog(o.start, s.log) == Ok(x) && Reduce(x, q.record, q.facts).Ok? && q.sequence == CursorOf(o, s.log)
    ensures ClientInvariant(o, s, Prepared(q, CommitFor(q, q.sequence, x, Reduce(x, q.record, q.facts).value)))
  {
    hide Reduce, FoldLog, SnapshotOf, StoreInvariant, PairAgrees, StaleError, StoredOutcome, Timely;
    CurrentCommitPasses(o, s, q, CommitFor(q, q.sequence, x, Reduce(x, q.record, q.facts).value));
  }

  lemma ReplySays(r: Result<CommitResult, IngestError>)
    ensures IsApplied(ReplyTo(r)) <==> r.Ok? && !r.value.alreadyCommitted
  {
  }

  lemma CommitForSays(q: Request, x: Reduced, y: Reduced)
    ensures CommitFor(q, q.sequence, x, y).sequence == q.sequence && CommitFor(q, q.sequence, x, y).digest == q.digest
  {
    hide SnapshotOf;
  }

  // ---- Reading a run for comparison ---------------------------------------------------------------------------

  /** comparisonEvidence: absent evidence stands for an empty evaluation only when the ingest state says the run is
      untouched. */
  ghost function ComparisonEvidence(d: Durable): Result<StoredEvidence, IngestError> {
    match StoredOutcome(d)
    case Err(e) => Err(e)
    case Ok(Some(e)) => Ok(e)
    case Ok(None) =>
      match StateOf(d)
      case Err(e) => Err(e)
      case Ok(state) => if GenuinelyEmpty(state) then Ok(EvidenceOf(Empty(d.run.environment))) else Err(ErrStoreCorrupt)
  }

  /** A comparison reads the reduction of the records the run accepted, an untouched run's being empty, exactly when the run
      is timely; otherwise it is told the store is corrupt. */
  lemma ComparisonReadsTheReduction(o: Origin, s: System)
    requires StoreInvariant(o, s)
    ensures FoldLog(o.start, s.log).Ok?
    ensures ComparisonEvidence(s.d) ==
            if Timely(o, s.log) then Ok(EvidenceOf(FoldLog(o.start, s.log).value)) else Err(ErrStoreCorrupt)
  {
    hide StoreInvariant, StoredOutcome, StateOf, GenuinelyEmpty, EvidenceOf, EvidenceIsFold, Timely;
    StoredOutcomeHere(o, s);
    StoredIsReduction(o, s);
    if Timely(o, s.log) && s.d.evidence.None? {
      AbsentIsUntouched(o, s);
    }
  }

  lemma StoredIsReduction(o: Origin, s: System)
    requires StoreInvariant(o, s)
    ensures FoldLog(o.start, s.log).Ok?
    ensures s.d.evidence == Some(EvidenceOf(FoldLog(o.start, s.log).value))
            || (s.d.evidence.None? && FoldLog(o.start, s.log).value == Empty(s.d.run.environment))
  {
    hide ValidReduced, IsBlock, LogSequenced, CursorIsLog, EvidenceOf, Empty, FedByTimely;
  }

  lemma AbsentIsUntouched(o: Origin, s: System)
    requires StoreInvariant(o, s) && s.d.evidence.None? && Timely(o, s.log)
    ensures StateOf(s.d).Ok? && GenuinelyEmpty(StateOf(s.d).value)
  {
    hide StoreInvariant, StoredOutcome, Timely;
    StoredOutcomeHere(o, s);
    EvidenceCount(o, s);
  }
}
