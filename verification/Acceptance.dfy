/** Exactly which records a run's evidence accepts, across the aggregate, the collector and the entry the record falls to. */
module Acceptance {
  import opened Bounded
  import opened Ordering
  import opened Codec
  import opened Operational
  import opened BehaviorOperational
  import F = Fidelity
  import opened Aggregate
  import opened Collector
  import opened Evidence
  import opened Ingest
  import opened Protocol

  // ---- What a summary takes -----------------------------------------------------------------------------------

  function NanosOf(d: DurationField): nat {
    if d.Nanos? then d.nanos else 0
  }

  /** The tokens a record reports still fit beside those already summed. */
  predicate TokensHaveRoom(t: TokenCounts, u: Usage) {
    u.hasInput || u.hasOutput || u.hasUnsplit ==>
      t.input + u.input <= MAX_UINT64 && t.output + u.output <= MAX_UINT64 && t.unsplit + u.unsplit <= MAX_UINT64
  }

  lemma TimingRoom(d: DurationSummary, c: SpanStatusCounts, n: nat, duration: DurationField, status: SpanStatus)
    requires ValidRestored(d, c, n) && n < MAX_UINT64
    ensures ObserveOperational(d, c, duration, status).Ok? <==>
            !duration.Malformed? && !status.StatusUnrecognized? && d.sum + NanosOf(duration) <= MAX_UINT64
    ensures duration.Malformed? ==> ObserveOperational(d, c, duration, status).Err?
  {
    hide SharpTotal;
  }

  lemma BucketRoom(b: DurationBuckets, d: DurationSummary, n: nat, duration: DurationField)
    requires ValidBuckets(b, d) && d.count <= n < MAX_UINT64
    ensures CountBucket(b, duration).Some?
  {
    hide DurationBucket, SumWithinBuckets, ExtremaInBuckets;
    if duration.Nanos? {
      PartWithinTotal(b, DurationBucket(duration.nanos));
    }
  }

  lemma CodeRoom(h: HttpStatusCounts, http429: U64, n: nat, code: U64)
    requires ValidHttp(h, http429, n) && n < MAX_UINT64
    ensures CountHttp(h, code).Some? && Count429(http429, code).Some?
  {
  }

  lemma TokenRoom(t: TokenCounts, n: nat, u: Usage)
    requires ValidTokens(t, n) && n < MAX_UINT64
    ensures CountTokens(t, u).Some? <==> TokensHaveRoom(t, u)
  {
  }

  lemma ObserveIsParts(s: OperationalSummary, duration: DurationField, status: SpanStatus, f: Facts)
    ensures Observe(s, duration, status, f).Ok? <==>
            && ObserveOperational(s.durations, s.spanStatus, duration, status).Ok? && CountBucket(s.buckets, duration).Some?
            && CountHttp(s.httpStatus, f.httpStatusCode).Some? && Count429(s.http429, f.httpStatusCode).Some?
            && CountTokens(s.tokens, f.usage).Some?
  {
    hide ObserveOperational, CountBucket, CountHttp, Count429, CountTokens;
  }

  /** A valid summary takes one more record if and only if its duration is well formed, its status known, and the duration and
      tokens fit: no other counter can be full. */
  lemma ObserveIff(s: OperationalSummary, n: nat, duration: DurationField, status: SpanStatus, f: Facts)
    requires ValidSummary(s, n) && n < MAX_UINT64
    ensures Observe(s, duration, status, f).Ok? <==>
            && !duration.Malformed? && !status.StatusUnrecognized? && s.durations.sum + NanosOf(duration) <= MAX_UINT64
            && TokensHaveRoom(s.tokens, f.usage)
  {
    hide ValidRestored, ValidBuckets, ValidHttp, ValidTokens, ObserveOperational, CountBucket, CountHttp, Count429, CountTokens, TokensHaveRoom,
         Observe;
    RestoredCounts(s.durations, s.spanStatus, n);
    ObserveIsParts(s, duration, status, f);
    TimingRoom(s.durations, s.spanStatus, n, duration, status);
    BucketRoom(s.buckets, s.durations, n, duration);
    CodeRoom(s.httpStatus, s.http429, n, f.httpStatusCode);
    TokenRoom(s.tokens, n, f.usage);
  }

  lemma RestoredCounts(d: DurationSummary, c: SpanStatusCounts, n: nat)
    requires ValidRestored(d, c, n)
    ensures d.count <= n
  {
  }

  // ---- The aggregate ------------------------------------------------------------------------------------------

  /** Every field the aggregate consumes is there and known, the record is of this environment and says so twice, and a matched
      rule names itself where the default names nothing. */
  predicate Ingestible(r: Record, environment: string) {
    && r.eventId != "" && r.timestamp != 0
    && r.environment == environment && r.behavior.environment == environment
    && r.decision != DecisionUnrecognized && r.risk != RiskUnrecognized && r.approval != ApprovalUnrecognized
    && (r.matchedDefault <==> r.policyRule == "") && r.signalsInRange
    && !ReadDuration(r.durationNanos).Malformed? && r.spanStatus != StatusUnrecognized
  }

  lemma CategoriesKnown(a: EvaluationAggregate, r: Record)
    ensures CountDecision(a.decisions, r.decision).Some? <==> r.decision != DecisionUnrecognized
    ensures CountRisk(a.risks, r.risk).Some? <==> r.risk != RiskUnrecognized
    ensures CountApproval(a.approvals, r.approval).Some? <==> r.approval != ApprovalUnrecognized
  {
  }

  /** The aggregate takes a record if and only if it is well formed, the record count is not full and the measured total fits:
      no category counter can be. */
  lemma AddRecordIff(a: EvaluationAggregate, r: Record)
    requires CountersValid(a)
    ensures AddRecord(a, r).Ok? <==>
            && a.recordCount < MAX_UINT64 && Ingestible(r, a.environment)
            && a.durations.sum + NanosOf(ReadDuration(r.durationNanos)) <= MAX_UINT64
  {
    hide CountDecision, CountRisk, CountApproval, CountPolicy, ObserveOperational, ReadDuration, ValidRestored;
    CategoriesKnown(a, r);
    if a.recordCount < MAX_UINT64 {
      TimingRoom(a.durations, a.statuses, a.recordCount, ReadDuration(r.durationNanos), r.spanStatus);
    }
  }

  // ---- The collector ------------------------------------------------------------------------------------------

  /** The fingerprint names this behavior or is new, and no other fingerprint names it. */
  predicate NamesAgree(entries: map<Id, BehaviorEntry>, r: Record) {
    if r.fingerprintId in entries then entries[r.fingerprintId].behavior == r.behavior
    else forall id | id in entries :: entries[id].behavior != r.behavior
  }

  /** The entry the record falls to has room for its duration and tokens. */
  predicate EntryHasRoom(entries: map<Id, BehaviorEntry>, r: Record, f: Facts) {
    r.fingerprintId in entries ==>
      && entries[r.fingerprintId].operational.durations.sum + NanosOf(ReadDuration(r.durationNanos)) <= MAX_UINT64
      && TokensHaveRoom(entries[r.fingerprintId].operational.tokens, f.usage)
  }

  lemma ObservedEntryIff(e: BehaviorEntry, n: nat, r: Record, f: Facts)
    requires ValidSummary(e.operational, n) && F.Valid(e.fidelity, n) && e.observations == n < MAX_UINT64 && ValidFacts(f)
    ensures ObservedEntry(e, r, f).Ok? <==>
            Observe(e.operational, ReadDuration(r.durationNanos), r.spanStatus, f).Ok?
    ensures ObservedEntry(e, r, f).Err? ==> ObservedEntry(e, r, f).error != ErrBehaviorCapacity
  {
    hide Observe, F.Observe, ReadDuration, ValidSummary, F.Valid;
    FidelityRoom(e.fidelity, n, f);
  }

  lemma FidelityRoom(b: F.BehaviorFidelity, n: nat, f: Facts)
    requires F.Valid(b, n) && n < MAX_UINT64 && ValidFacts(f)
    ensures F.Observe(b, f.fidelity, f.layer).Some?
  {
    F.ObserveKeepsValid(b, f.fidelity, f.layer, n);
  }

  lemma KnownEntryIff(c: CollectorState, r: Record, f: Facts)
    requires ValidCollector(c) && c.observations < MAX_UINT64 && ValidFacts(f) && r.fingerprintId in c.entries
    requires !ReadDuration(r.durationNanos).Malformed? && !r.spanStatus.StatusUnrecognized?
    ensures ObservedEntry(c.entries[r.fingerprintId], r, f).Ok? <==> EntryHasRoom(c.entries, r, f)
    ensures ObservedEntry(c.entries[r.fingerprintId], r, f).Err? ==>
              ObservedEntry(c.entries[r.fingerprintId], r, f).error != ErrBehaviorCapacity
  {
    hide ObservedEntry, Observe, ValidSummary, ReadDuration, Bijection, F.Valid, TokensHaveRoom, ValidFacts;
    var e := c.entries[r.fingerprintId];
    assert EntryValidAt(c.entries, r.fingerprintId);
    ObservationSumAt(c.entries, r.fingerprintId);
    ObservedEntryIff(e, e.observations, r, f);
    ObserveIff(e.operational, e.observations, ReadDuration(r.durationNanos), r.spanStatus, f);
  }

  lemma FreshEntryTakes(r: Record, f: Facts)
    requires ValidFacts(f) && !ReadDuration(r.durationNanos).Malformed? && !r.spanStatus.StatusUnrecognized?
    ensures ObservedEntry(FreshEntry(r), r, f).Ok?
  {
    hide ObservedEntry, Observe, ValidSummary, F.Valid;
    EmptyIsValid();
    NoFidelityIsValid();
    FreshIsEmpty(r);
    ObservedEntryIff(FreshEntry(r), 0, r, f);
    ObserveIff(EMPTY, 0, ReadDuration(r.durationNanos), r.spanStatus, f);
    SmallUsage(f);
    ShortDuration(r.durationNanos);
  }

  lemma NoFidelityIsValid()
    ensures F.Valid(F.NO_FIDELITY, 0)
  {
  }

  lemma FreshIsEmpty(r: Record)
    ensures FreshEntry(r).observations == 0 && FreshEntry(r).operational == EMPTY && FreshEntry(r).fidelity == F.NO_FIDELITY
  {
  }

  lemma SmallUsage(f: Facts)
    ensures TokensHaveRoom(EMPTY.tokens, f.usage)
  {
  }

  lemma ShortDuration(text: string)
    ensures NanosOf(ReadDuration(text)) <= MAX_UINT64
  {
  }

  lemma BehaviorKnown(c: CollectorState, r: Record)
    requires Bijection(c.entries, c.byBehavior) && r.fingerprintId !in c.entries
    ensures r.behavior in c.byBehavior && c.byBehavior[r.behavior] != r.fingerprintId <==> !NamesAgree(c.entries, r)
  {
  }

  predicate Tolerated(e: Option<IngestError>) {
    e.None? || e == Some(ErrBehaviorCapacity)
  }

  lemma ObservedKnown(c: CollectorState, r: Record, f: Facts)
    requires Preflight(c, r, f).None? && r.fingerprintId in c.entries
    ensures var e := c.entries[r.fingerprintId];
            Tolerated(Observed(c, r, f).1) <==>
            e.behavior == r.behavior && (ObservedEntry(e, r, f).Ok? || ObservedEntry(e, r, f).error == ErrBehaviorCapacity)
  {
    hide Preflight, ObservedEntry;
  }

  lemma ObservedNew(c: CollectorState, r: Record, f: Facts)
    requires Preflight(c, r, f).None? && r.fingerprintId !in c.entries && ObservedEntry(FreshEntry(r), r, f).Ok?
    ensures Tolerated(Observed(c, r, f).1) <==> !(r.behavior in c.byBehavior && c.byBehavior[r.behavior] != r.fingerprintId)
  {
    hide Preflight, ObservedEntry, FreshEntry;
  }

  lemma PreflightIff(c: CollectorState, r: Record, f: Facts)
    requires c.complete && c.observations < MAX_UINT64 && Ingestible(r, c.environment)
    ensures Preflight(c, r, f).None? <==> ValidIdentity(r.fingerprintId, r.behavior) && ValidFacts(f)
    ensures Preflight(c, r, f).Some? ==> !Tolerated(Observed(c, r, f).1)
  {
    hide ValidIdentity, ValidFacts, ReadDuration;
  }

  /** A complete collector that has room takes a well-formed record, or saturates on it, if and only if its identity and facts
      are valid, its fingerprint and behavior name each other, and the entry has room. */
  lemma ObservedIff(c: CollectorState, r: Record, f: Facts)
    requires ValidCollector(c) && c.complete && c.observations < MAX_UINT64 && Ingestible(r, c.environment)
    ensures Tolerated(Observed(c, r, f).1) <==>
            && ValidIdentity(r.fingerprintId, r.behavior) && ValidFacts(f) && NamesAgree(c.entries, r) && EntryHasRoom(c.entries, r, f)
  {
    hide Observed, Preflight, ObservedEntry, ValidIdentity, ValidFacts, Bijection, EntriesValid, ReadDuration;
    PreflightIff(c, r, f);
    if Preflight(c, r, f).None? {
      if r.fingerprintId in c.entries {
        KnownEntryIff(c, r, f);
        ObservedKnown(c, r, f);
      } else {
        FreshEntryTakes(r, f);
        ObservedNew(c, r, f);
        BehaviorKnown(c, r);
      }
    }
  }

  // ---- Both together ------------------------------------------------------------------------------------------

  lemma ReduceIsBoth(x: Reduced, r: Record, f: Facts)
    ensures Reduce(x, r, f).Ok? <==> AddRecord(x.aggregate, r).Ok? && Tolerated(Observed(x.collector, r, f).1)
    ensures !x.collector.complete ==> Tolerated(Observed(x.collector, r, f).1)
  {
    hide AddRecord, ObservedEntry;
  }

  lemma CollectorHasRoom(x: Reduced)
    requires ValidReduced(x)
    ensures ValidCollector(x.collector) && CountersValid(x.aggregate) && x.collector.environment == x.aggregate.environment
    ensures x.collector.complete ==> x.collector.observations == x.aggregate.recordCount
  {
    hide CountersValid, ValidCollector, IdentitiesValid;
  }

  /** Exactly which records are accepted into valid evidence: those that are well formed for the run's environment, while the
      record count is not full and the measured total fits and, unless the collector has saturated, whose identity and facts
      are valid, whose fingerprint and behavior name each other, and whose entry has room. */
  lemma ReduceIff(x: Reduced, r: Record, f: Facts)
    requires ValidReduced(x)
    ensures Reduce(x, r, f).Ok? <==>
            && x.aggregate.recordCount < MAX_UINT64 && Ingestible(r, x.aggregate.environment)
            && x.aggregate.durations.sum + NanosOf(ReadDuration(r.durationNanos)) <= MAX_UINT64
            && (x.collector.complete ==>
                  && ValidIdentity(r.fingerprintId, r.behavior) && ValidFacts(f) && NamesAgree(x.collector.entries, r)
                  && EntryHasRoom(x.collector.entries, r, f))
  {
    hide Reduce, AddRecord, Observed, ValidReduced, ValidCollector, Ingestible, ValidIdentity, ValidFacts, NamesAgree, EntryHasRoom, ReadDuration,
         CountersValid;
    CollectorHasRoom(x);
    ReduceIsBoth(x, r, f);
    AddRecordIff(x.aggregate, r);
    if AddRecord(x.aggregate, r).Ok? && x.collector.complete {
      ObservedIff(x.collector, r, f);
    }
  }

  /** So the observation projected after folding never refuses a record the fold accepted. */
  lemma ObservationNeverRefused(x: Reduced, q: Request)
    requires Reduce(x, q.record, q.facts).Ok? && q.sequence != 0 && ValidReduced(x)
    ensures Observable(q)
  {
    hide Reduce, ValidReduced, ValidIdentity, ValidFacts, NamesAgree, EntryHasRoom, ReadDuration;
    ReduceIff(x, q.record, q.facts);
  }

  // ---- Which refusal ------------------------------------------------------------------------------------------

  /** Why the aggregate refuses a record: it is full, or the record's environment is another's, or the record is malformed, or
      its duration no longer fits, which is found before an unknown span status is. */
  lemma AddRecordRefusal(a: EvaluationAggregate, r: Record)
    requires CountersValid(a) && AddRecord(a, r).Err?
    ensures AddRecord(a, r).error == ErrAggregateOverflow <==>
            || a.recordCount == MAX_UINT64
            || (Ingestible(r.(spanStatus := StatusOK), a.environment)
                && a.durations.sum + NanosOf(ReadDuration(r.durationNanos)) > MAX_UINT64)
    ensures AddRecord(a, r).error == ErrEnvironmentMismatch <==>
            a.recordCount < MAX_UINT64 && r.eventId != "" && r.timestamp != 0 && r.environment != a.environment
    ensures AddRecord(a, r).error == ErrAggregateOverflow || AddRecord(a, r).error == ErrEnvironmentMismatch
            || AddRecord(a, r).error == ErrInvalidRecord
  {
    hide CountDecision, CountRisk, CountApproval, CountPolicy, ObserveOperational, ReadDuration, ValidRestored;
    CategoriesKnown(a, r);
    if a.recordCount < MAX_UINT64 {
      TimingRefusal(a.durations, a.statuses, a.recordCount, ReadDuration(r.durationNanos), r.spanStatus);
    }
  }

  lemma TimingRefusal(d: DurationSummary, c: SpanStatusCounts, n: nat, duration: DurationField, status: SpanStatus)
    requires ValidRestored(d, c, n) && n < MAX_UINT64
    ensures var o := ObserveOperational(d, c, duration, status);
            && (o == Err(CounterOverflow) <==> !duration.Malformed? && d.sum + NanosOf(duration) > MAX_UINT64)
            && (o.Err? ==> o == Err(CounterOverflow) || o == Err(InvalidRecord))
            && (o == Err(InvalidRecord) ==> duration.Malformed? || status.StatusUnrecognized?)
  {
    hide SharpTotal;
  }

  lemma ObservedCases(c: CollectorState, r: Record, f: Facts)
    requires Preflight(c, r, f).None?
    ensures var o := Observed(c, r, f);
            if r.fingerprintId in c.entries then
              var e := c.entries[r.fingerprintId];
              if e.behavior != r.behavior then o == (c, Some(ErrFingerprintConflict))
              else o.1 == (if ObservedEntry(e, r, f).Err? then Some(ObservedEntry(e, r, f).error) else None)
            else if r.behavior in c.byBehavior && c.byBehavior[r.behavior] != r.fingerprintId then o == (c, Some(ErrFingerprintConflict))
            else if |c.entries| >= MAX_BEHAVIOR_ENTRIES then o == (c.(complete := false), Some(ErrBehaviorCapacity))
            else o.1 == (if ObservedEntry(FreshEntry(r), r, f).Err? then Some(ObservedEntry(FreshEntry(r), r, f).error) else None)
  {
    hide Preflight, ObservedEntry, FreshEntry;
  }

  lemma EntryRefusal(e: BehaviorEntry, r: Record, f: Facts)
    requires ValidSummary(e.operational, e.observations) && F.Valid(e.fidelity, e.observations) && e.observations < MAX_UINT64 && ValidFacts(f)
    requires !ReadDuration(r.durationNanos).Malformed? && !r.spanStatus.StatusUnrecognized? && ObservedEntry(e, r, f).Err?
    ensures ObservedEntry(e, r, f).error == ErrBehaviorOverflow
  {
    hide F.Observe, ReadDuration, ValidSummary, F.Valid, CountBucket, CountHttp, Count429, CountTokens, ObserveOperational;
    FidelityRoom(e.fidelity, e.observations, f);
    SummaryTiming(e.operational, e.observations);
    TimingRefusal(e.operational.durations, e.operational.spanStatus, e.observations, ReadDuration(r.durationNanos), r.spanStatus);
  }

  lemma SummaryTiming(s: OperationalSummary, n: nat)
    requires ValidSummary(s, n)
    ensures ValidRestored(s.durations, s.spanStatus, n)
  {
    hide ValidRestored;
  }

  lemma KnownRefusal(c: CollectorState, r: Record, f: Facts)
    requires ValidCollector(c) && c.observations < MAX_UINT64 && ValidFacts(f) && r.fingerprintId in c.entries
    requires !ReadDuration(r.durationNanos).Malformed? && !r.spanStatus.StatusUnrecognized?
    ensures ObservedEntry(c.entries[r.fingerprintId], r, f).Err? ==> ObservedEntry(c.entries[r.fingerprintId], r, f).error == ErrBehaviorOverflow
  {
    hide ObservedEntry, Observe, ValidSummary, ReadDuration, Bijection, F.Valid, ValidFacts;
    assert EntryValidAt(c.entries, r.fingerprintId);
    ObservationSumAt(c.entries, r.fingerprintId);
    if ObservedEntry(c.entries[r.fingerprintId], r, f).Err? {
      EntryRefusal(c.entries[r.fingerprintId], r, f);
    }
  }

  /** What a complete collector with room says to a well-formed record: invalid if its identity or facts are, a conflict if
      fingerprint and behavior name others, an overflow if the entry has no room, saturation if it is new to a full
      collector, and nothing otherwise. */
  lemma ObservedRefusal(c: CollectorState, r: Record, f: Facts)
    requires ValidCollector(c) && c.complete && c.observations < MAX_UINT64 && Ingestible(r, c.environment)
    ensures Observed(c, r, f).1 ==
            if !ValidIdentity(r.fingerprintId, r.behavior) || !ValidFacts(f) then Some(ErrInvalidRecord)
            else if !NamesAgree(c.entries, r) then Some(ErrFingerprintConflict)
            else if r.fingerprintId !in c.entries && |c.entries| >= 512 then Some(ErrBehaviorCapacity)
            else if !EntryHasRoom(c.entries, r, f) then Some(ErrBehaviorOverflow)
            else None
  {
    hide Observed, ObservedEntry, ValidIdentity, ValidFacts, Bijection, EntriesValid, ReadDuration;
    if ValidIdentity(r.fingerprintId, r.behavior) && ValidFacts(f) {
      PreflightIff(c, r, f);
      ObservedCases(c, r, f);
      if r.fingerprintId in c.entries {
        KnownEntryIff(c, r, f);
        KnownRefusal(c, r, f);
      } else {
        FreshEntryTakes(r, f);
        BehaviorKnown(c, r);
      }
    } else {
      InvalidIdentity(c, r, f);
    }
  }

  lemma InvalidIdentity(c: CollectorState, r: Record, f: Facts)
    requires c.complete && c.observations < MAX_UINT64 && Ingestible(r, c.environment)
    requires !ValidIdentity(r.fingerprintId, r.behavior) || !ValidFacts(f)
    ensures Observed(c, r, f) == (c, Some(ErrInvalidRecord))
  {
    hide ValidIdentity, ValidFacts, ReadDuration, ObservedEntry;
  }
}
