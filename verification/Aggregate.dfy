/** The consumed fields of a decision record, and platform/aggregate.go's fixed-shape summary of a run. */
module Aggregate {
  import opened Bounded
  import opened Operational
  import opened Codec

  datatype ActorType = ActorService | ActorUser | ActorServiceAccount | ActorAIAgent | ActorDevice | ActorUnknown | ActorUnrecognized(text: string)
  datatype OperationCategory = OperationHTTP | OperationDB | OperationRPC | OperationTool | OperationExternal | OperationUnrecognized(text: string)
  datatype TargetCategory = TargetUnspecified | TargetInternal | TargetExternal | TargetDatabase | TargetUnrecognized(text: string)

  datatype StableFeatures = StableFeatures(
    actorType: ActorType, operationCategory: OperationCategory, operationName: string,
    targetName: string, targetCategory: TargetCategory, environment: string)

  datatype Decision = Allow | ObserveOnly | Alert | Challenge | RequireApproval | Block | DecisionUnrecognized
  datatype RiskLevel = LowRisk | MediumRisk | HighRisk | CriticalRisk | RiskUnrecognized
  datatype ApprovalStatus = ApprovalUnspecified | ApprovalNotRequired | ApprovalRequired | ApprovalApproved | ApprovalDenied | ApprovalUnrecognized

  /** An instant, in nanoseconds from Go's zero time. A record's may lie on either side of it: the engine admits every year
      from 0 to 9999 in its own zone, and the zero time is the first instant of year 1 in UTC. */
  type Instant = int

  /** A record's consumed fields. `signalsInRange` stands for the five float checks against [0,1]. */
  datatype Record = Record(
    eventId: string, timestamp: Instant, environment: string, fingerprintId: string, behavior: StableFeatures,
    decision: Decision, risk: RiskLevel, approval: ApprovalStatus, matchedDefault: bool, policyRule: string,
    signalsInRange: bool, durationNanos: string, spanStatus: SpanStatus,
    traceId: string, spanId: string, parentSpanId: string)

  datatype IngestError =
    | ErrInvalidRecord | ErrEnvironmentMismatch | ErrAggregateOverflow | ErrBehaviorOverflow
    | ErrFingerprintConflict | ErrBehaviorCapacity | ErrSequence | ErrEvaluationState | ErrProfileMismatch
    | ErrStoreConflict | ErrStoreCorrupt | ErrStoreAlreadyExists | ErrInvalidObservation

  /** DecisionRecord.ValidateDurationNanos: canonical decimal within the per-observation maximum, or nothing at all. */
  function ReadDuration(text: string): DurationField {
    if text == "" then Absent
    else
      match ParseUint(text)
      case None => Malformed
      case Some(v) => if Decimal(v) != text || v > MAX_DURATION_NANOS then Malformed else Nanos(v)
  }

  /** A duration is read exactly from the canonical text of a number within the maximum, and only no text reads as none. */
  lemma ReadDurationExact(text: string, n: U64)
    ensures ReadDuration(text) == Nanos(n) <==> text == Decimal(n) && n <= MAX_DURATION_NANOS
    ensures ReadDuration(text) == Absent <==> text == ""
  {
    hide Value, AllDigits, Decimal;
    DecimalReads(n);
  }

  lemma DecimalReads(n: U64)
    ensures Decimal(n) != "" && ParseUint(Decimal(n)) == Some(n)
  {
    DecimalDigits(n);
  }

  datatype DecisionCounts = DecisionCounts(allow: U64, observeOnly: U64, alert: U64, challenge: U64, requireApproval: U64, block: U64)
  datatype RiskCounts = RiskCounts(low: U64, medium: U64, high: U64, critical: U64)
  datatype ApprovalCounts = ApprovalCounts(unspecified: U64, notRequired: U64, required: U64, approved: U64, denied: U64)
  datatype PolicySelection = PolicySelection(matchedRule: U64, matchedDefault: U64)

  datatype EvaluationAggregate = EvaluationAggregate(
    environment: string, recordCount: U64, firstObservedAt: Instant, lastObservedAt: Instant,
    decisions: DecisionCounts, risks: RiskCounts, approvals: ApprovalCounts, policy: PolicySelection,
    durations: DurationSummary, statuses: SpanStatusCounts)

  function NewAggregate(environment: string): EvaluationAggregate {
    EvaluationAggregate(environment, 0, 0, 0, DecisionCounts(0, 0, 0, 0, 0, 0), RiskCounts(0, 0, 0, 0),
                        ApprovalCounts(0, 0, 0, 0, 0), PolicySelection(0, 0), NO_DURATIONS, NO_STATUSES)
  }

  /** Go's unguarded `++` on a uint64. */
  function Increment(n: U64): U64 {
    if n == MAX_UINT64 then 0 else n + 1
  }

  function CountDecision(c: DecisionCounts, d: Decision): Option<DecisionCounts> {
    match d
    case Allow => Some(c.(allow := Increment(c.allow)))
    case ObserveOnly => Some(c.(observeOnly := Increment(c.observeOnly)))
    case Alert => Some(c.(alert := Increment(c.alert)))
    case Challenge => Some(c.(challenge := Increment(c.challenge)))
    case RequireApproval => Some(c.(requireApproval := Increment(c.requireApproval)))
    case Block => Some(c.(block := Increment(c.block)))
    case DecisionUnrecognized => None
  }

  function CountRisk(c: RiskCounts, r: RiskLevel): Option<RiskCounts> {
    match r
    case LowRisk => Some(c.(low := Increment(c.low)))
    case MediumRisk => Some(c.(medium := Increment(c.medium)))
    case HighRisk => Some(c.(high := Increment(c.high)))
    case CriticalRisk => Some(c.(critical := Increment(c.critical)))
    case RiskUnrecognized => None
  }

  function CountApproval(c: ApprovalCounts, a: ApprovalStatus): Option<ApprovalCounts> {
    match a
    case ApprovalUnspecified => Some(c.(unspecified := Increment(c.unspecified)))
    case ApprovalNotRequired => Some(c.(notRequired := Increment(c.notRequired)))
    case ApprovalRequired => Some(c.(required := Increment(c.required)))
    case ApprovalApproved => Some(c.(approved := Increment(c.approved)))
    case ApprovalDenied => Some(c.(denied := Increment(c.denied)))
    case ApprovalUnrecognized => None
  }

  function CountPolicy(p: PolicySelection, matchedDefault: bool): PolicySelection {
    if matchedDefault then p.(matchedDefault := Increment(p.matchedDefault)) else p.(matchedRule := Increment(p.matchedRule))
  }

  /** The first observation is guarded by IsZero, the last is not: it starts at the zero time and only moves forward. */
  function EarliestOf(first: Instant, at: Instant): Instant {
    if first == 0 || at < first then at else first
  }

  function LatestOf(last: Instant, at: Instant): Instant {
    if at > last then at else last
  }

  /** Folds one record in, or refuses it with nothing changed. */
  function AddRecord(a: EvaluationAggregate, r: Record): Result<EvaluationAggregate, IngestError> {
    if a.recordCount == MAX_UINT64 then Err(ErrAggregateOverflow)
    else if r.eventId == "" || r.timestamp == 0 then Err(ErrInvalidRecord)
    else if r.environment != a.environment then Err(ErrEnvironmentMismatch)
    else if r.behavior.environment != r.environment then Err(ErrInvalidRecord)
    else
      match (CountDecision(a.decisions, r.decision), CountRisk(a.risks, r.risk), CountApproval(a.approvals, r.approval))
      case (Some(decisions), Some(risks), Some(approvals)) =>
        if r.matchedDefault && r.policyRule != "" then Err(ErrInvalidRecord)
        else if !r.matchedDefault && r.policyRule == "" then Err(ErrInvalidRecord)
        else if !r.signalsInRange then Err(ErrInvalidRecord)
        else
          (match ObserveOperational(a.durations, a.statuses, ReadDuration(r.durationNanos), r.spanStatus)
           case Err(e) => Err(if e == InvalidRecord then ErrInvalidRecord else ErrAggregateOverflow)
           case Ok(pair) =>
             Ok(EvaluationAggregate(a.environment, a.recordCount + 1, EarliestOf(a.firstObservedAt, r.timestamp),
                                    LatestOf(a.lastObservedAt, r.timestamp), decisions, risks, approvals,
                                    CountPolicy(a.policy, r.matchedDefault), pair.0, pair.1)))
      case _ => Err(ErrInvalidRecord)
  }

  /** Each category partitions the records, and the operational summaries are ones that many records produce. */
  predicate CountersValid(a: EvaluationAggregate) {
    && a.decisions.allow + a.decisions.observeOnly + a.decisions.alert + a.decisions.challenge
       + a.decisions.requireApproval + a.decisions.block == a.recordCount
    && a.risks.low + a.risks.medium + a.risks.high + a.risks.critical == a.recordCount
    && a.approvals.unspecified + a.approvals.notRequired + a.approvals.required + a.approvals.approved
       + a.approvals.denied == a.recordCount
    && a.policy.matchedRule + a.policy.matchedDefault == a.recordCount
    && ValidRestored(a.durations, a.statuses, a.recordCount)
  }

  /** The validator's rules on observation times. A zero time is stored as NULL and read back as zero. */
  predicate TimesValid(a: EvaluationAggregate) {
    if a.recordCount == 0 then a.firstObservedAt == 0 && a.lastObservedAt == 0
    else a.firstObservedAt != 0 && a.lastObservedAt != 0 && a.lastObservedAt >= a.firstObservedAt
  }

  /** validateRestoredAggregate. */
  predicate ValidAggregate(a: EvaluationAggregate) {
    CountersValid(a) && TimesValid(a)
  }

  /** What folding keeps of the observation times, which is less than the validator asks. */
  predicate TimesOrdered(a: EvaluationAggregate) {
    if a.recordCount == 0 then a.firstObservedAt == 0 && a.lastObservedAt == 0
    else a.firstObservedAt != 0 && a.firstObservedAt <= a.lastObservedAt
  }

  predicate SoundAggregate(a: EvaluationAggregate) {
    CountersValid(a) && TimesOrdered(a)
  }

  /** Some record was observed after the zero time, or there is none. */
  predicate Dated(a: EvaluationAggregate) {
    a.recordCount == 0 || a.lastObservedAt != 0
  }

  /** What folding produces passes the restore-time validator exactly when it is dated. */
  lemma ValidIffDated(a: EvaluationAggregate)
    ensures ValidAggregate(a) <==> SoundAggregate(a) && Dated(a)
  {
  }

  lemma DurationReadIsPlausible(text: string, status: SpanStatus)
    ensures !ReadDuration(text).Malformed? && !status.StatusUnrecognized? <==> Plausible(Sample(ReadDuration(text), status))
  {
  }

  lemma FoldOneMore(stream: seq<Sample>, x: Sample)
    requires FoldStream(stream).Some?
    ensures var pair := FoldStream(stream).value;
            ObserveOperational(pair.0, pair.1, x.duration, x.status).Ok? ==>
              FoldStream(stream + [x]) == Some(ObserveOperational(pair.0, pair.1, x.duration, x.status).value)
  {
    hide ObserveOperational;
    assert (stream + [x])[..|stream|] == stream;
  }

  lemma OneMoreIsValid(d: DurationSummary, c: SpanStatusCounts, n: U64, duration: DurationField, status: SpanStatus)
    requires ValidRestored(d, c, n) && n < MAX_UINT64 && Plausible(Sample(duration, status))
    ensures var r := ObserveOperational(d, c, duration, status); r.Ok? ==> ValidRestored(r.value.0, r.value.1, n + 1)
  {
    hide ValidRestored, ObserveOperational, FoldStream, Plausible;
    if ObserveOperational(d, c, duration, status).Ok? {
      var stream := WitnessFor(d, c, n);
      FoldOneMore(stream, Sample(duration, status));
      FoldedIsValid(stream + [Sample(duration, status)]);
    }
  }

  lemma CategoriesCount(a: EvaluationAggregate, r: Record)
    requires CountersValid(a) && AddRecord(a, r).Ok?
    ensures var b := AddRecord(a, r).value;
            && b.recordCount == a.recordCount + 1
            && b.decisions.allow + b.decisions.observeOnly + b.decisions.alert + b.decisions.challenge
               + b.decisions.requireApproval + b.decisions.block == b.recordCount
            && b.risks.low + b.risks.medium + b.risks.high + b.risks.critical == b.recordCount
            && b.approvals.unspecified + b.approvals.notRequired + b.approvals.required + b.approvals.approved
               + b.approvals.denied == b.recordCount
            && b.policy.matchedRule + b.policy.matchedDefault == b.recordCount
  {
  }

  /** No category counter ever wraps although none is guarded: each stays a partition of the guarded record count. */
  lemma AddRecordKeepsCounters(a: EvaluationAggregate, r: Record)
    requires CountersValid(a) && AddRecord(a, r).Ok?
    ensures CountersValid(AddRecord(a, r).value)
    ensures AddRecord(a, r).value.recordCount == a.recordCount + 1
    ensures Plausible(Sample(ReadDuration(r.durationNanos), r.spanStatus))
  {
    CategoriesCount(a, r);
    DurationReadIsPlausible(r.durationNanos, r.spanStatus);
    OneMoreIsValid(a.durations, a.statuses, a.recordCount, ReadDuration(r.durationNanos), r.spanStatus);
  }

  lemma TimesAfter(a: EvaluationAggregate, r: Record)
    requires AddRecord(a, r).Ok?
    ensures r.timestamp != 0 && AddRecord(a, r).value.recordCount == a.recordCount + 1
    ensures AddRecord(a, r).value.firstObservedAt == EarliestOf(a.firstObservedAt, r.timestamp)
    ensures AddRecord(a, r).value.lastObservedAt == LatestOf(a.lastObservedAt, r.timestamp)
    ensures AddRecord(a, r).value.environment == a.environment
  {
  }

  /** Every accepted record keeps the aggregate sound. From a sound aggregate that is dated it stays dated, and so passes
      the restore-time validator, unless the record is the first and stands before the zero time: AddRecord accepts such a
      record and the validator refuses what it leaves. */
  lemma AddRecordKeepsSound(a: EvaluationAggregate, r: Record)
    requires SoundAggregate(a) && AddRecord(a, r).Ok?
    ensures var b := AddRecord(a, r).value;
            && SoundAggregate(b) && b.recordCount == a.recordCount + 1 && b.environment == a.environment
            && (Dated(a) ==> (ValidAggregate(b) <==> a.recordCount > 0 || r.timestamp > 0))
  {
    hide CountersValid, AddRecord;
    AddRecordKeepsCounters(a, r);
    TimesAfter(a, r);
  }

  lemma NewAggregateIsSound(environment: string)
    ensures SoundAggregate(NewAggregate(environment)) && Dated(NewAggregate(environment))
  {
  }
}
