/** What a run's evidence says of the requests it accepted, counter by counter: the aggregate's categories and times as tallies
    over the log, each behavior's entry as the fold of the requests that carried its fingerprint, each observation as its
    request's. */
module Tallies {
  import opened Bounded
  import opened Ordering
  import opened Codec
  import opened Operational
  import opened BehaviorOperational
  import opened BucketExactness
  import opened SummaryExactness
  import F = Fidelity
  import opened Aggregate
  import opened Collector
  import opened Evidence
  import opened Runs
  import opened Counting
  import opened Retention
  import opened Ingest
  import opened Protocol
  import opened ProtocolSafety
  import opened ProtocolRuns

  // ---- Categories ---------------------------------------------------------------------------------------------

  function DecisionTally(log: seq<Request>, d: Decision): nat {
    if log == [] then 0 else DecisionTally(log[..|log| - 1], d) + (if log[|log| - 1].record.decision == d then 1 else 0)
  }

  function RiskTally(log: seq<Request>, r: RiskLevel): nat {
    if log == [] then 0 else RiskTally(log[..|log| - 1], r) + (if log[|log| - 1].record.risk == r then 1 else 0)
  }

  function ApprovalTally(log: seq<Request>, a: ApprovalStatus): nat {
    if log == [] then 0 else ApprovalTally(log[..|log| - 1], a) + (if log[|log| - 1].record.approval == a then 1 else 0)
  }

  function DefaultTally(log: seq<Request>, matchedDefault: bool): nat {
    if log == [] then 0
    else DefaultTally(log[..|log| - 1], matchedDefault) + (if log[|log| - 1].record.matchedDefault == matchedDefault then 1 else 0)
  }

  predicate DecisionsTallied(a: DecisionCounts, b: DecisionCounts, log: seq<Request>) {
    && b.allow == a.allow + DecisionTally(log, Allow) && b.observeOnly == a.observeOnly + DecisionTally(log, ObserveOnly)
    && b.alert == a.alert + DecisionTally(log, Alert) && b.challenge == a.challenge + DecisionTally(log, Challenge)
    && b.requireApproval == a.requireApproval + DecisionTally(log, RequireApproval) && b.block == a.block + DecisionTally(log, Block)
  }

  predicate RisksTallied(a: RiskCounts, b: RiskCounts, log: seq<Request>) {
    && b.low == a.low + RiskTally(log, LowRisk) && b.medium == a.medium + RiskTally(log, MediumRisk)
    && b.high == a.high + RiskTally(log, HighRisk) && b.critical == a.critical + RiskTally(log, CriticalRisk)
  }

  predicate ApprovalsTallied(a: ApprovalCounts, b: ApprovalCounts, log: seq<Request>) {
    && b.unspecified == a.unspecified + ApprovalTally(log, ApprovalUnspecified)
    && b.notRequired == a.notRequired + ApprovalTally(log, ApprovalNotRequired)
    && b.required == a.required + ApprovalTally(log, ApprovalRequired)
    && b.approved == a.approved + ApprovalTally(log, ApprovalApproved) && b.denied == a.denied + ApprovalTally(log, ApprovalDenied)
  }

  /** Each counter is its start value and the requests that carried its very value since. */
  predicate CategoriesTallied(a: EvaluationAggregate, b: EvaluationAggregate, log: seq<Request>) {
    && DecisionsTallied(a.decisions, b.decisions, log) && RisksTallied(a.risks, b.risks, log)
    && ApprovalsTallied(a.approvals, b.approvals, log)
    && b.policy.matchedRule == a.policy.matchedRule + DefaultTally(log, false)
    && b.policy.matchedDefault == a.policy.matchedDefault + DefaultTally(log, true)
    && b.recordCount == a.recordCount + |log|
  }

  lemma TallySnoc(log: seq<Request>, q: Request)
    ensures forall d :: DecisionTally(log + [q], d) == DecisionTally(log, d) + (if q.record.decision == d then 1 else 0)
    ensures forall r :: RiskTally(log + [q], r) == RiskTally(log, r) + (if q.record.risk == r then 1 else 0)
    ensures forall a :: ApprovalTally(log + [q], a) == ApprovalTally(log, a) + (if q.record.approval == a then 1 else 0)
    ensures forall m :: DefaultTally(log + [q], m) == DefaultTally(log, m) + (if q.record.matchedDefault == m then 1 else 0)
  {
    assert (log + [q])[..|log|] == log;
  }

  lemma DecisionCounted(c: DecisionCounts, d: Decision)
    requires c.allow < MAX_UINT64 && c.observeOnly < MAX_UINT64 && c.alert < MAX_UINT64 && c.challenge < MAX_UINT64
    requires c.requireApproval < MAX_UINT64 && c.block < MAX_UINT64 && CountDecision(c, d).Some?
    ensures var n := CountDecision(c, d).value;
            && n.allow == c.allow + (if d == Allow then 1 else 0) && n.observeOnly == c.observeOnly + (if d == ObserveOnly then 1 else 0)
            && n.alert == c.alert + (if d == Alert then 1 else 0) && n.challenge == c.challenge + (if d == Challenge then 1 else 0)
            && n.requireApproval == c.requireApproval + (if d == RequireApproval then 1 else 0)
            && n.block == c.block + (if d == Block then 1 else 0)
  {
  }

  lemma RiskCounted(c: RiskCounts, r: RiskLevel)
    requires c.low < MAX_UINT64 && c.medium < MAX_UINT64 && c.high < MAX_UINT64 && c.critical < MAX_UINT64 && CountRisk(c, r).Some?
    ensures var n := CountRisk(c, r).value;
            && n.low == c.low + (if r == LowRisk then 1 else 0) && n.medium == c.medium + (if r == MediumRisk then 1 else 0)
            && n.high == c.high + (if r == HighRisk then 1 else 0) && n.critical == c.critical + (if r == CriticalRisk then 1 else 0)
  {
  }

  lemma ApprovalCounted(c: ApprovalCounts, a: ApprovalStatus)
    requires c.unspecified < MAX_UINT64 && c.notRequired < MAX_UINT64 && c.required < MAX_UINT64 && c.approved < MAX_UINT64
    requires c.denied < MAX_UINT64 && CountApproval(c, a).Some?
    ensures var n := CountApproval(c, a).value;
            && n.unspecified == c.unspecified + (if a == ApprovalUnspecified then 1 else 0)
            && n.notRequired == c.notRequired + (if a == ApprovalNotRequired then 1 else 0)
            && n.required == c.required + (if a == ApprovalRequired then 1 else 0)
            && n.approved == c.approved + (if a == ApprovalApproved then 1 else 0)
            && n.denied == c.denied + (if a == ApprovalDenied then 1 else 0)
  {
  }

  lemma PolicyCounted(p: PolicySelection, m: bool)
    requires p.matchedRule < MAX_UINT64 && p.matchedDefault < MAX_UINT64
    ensures CountPolicy(p, m).matchedRule == p.matchedRule + (if m then 0 else 1)
    ensures CountPolicy(p, m).matchedDefault == p.matchedDefault + (if m then 1 else 0)
  {
  }

  lemma AddedCategories(a: EvaluationAggregate, r: Record)
    requires AddRecord(a, r).Ok?
    ensures a.recordCount < MAX_UINT64 && AddRecord(a, r).value.recordCount == a.recordCount + 1
    ensures CountDecision(a.decisions, r.decision) == Some(AddRecord(a, r).value.decisions)
    ensures CountRisk(a.risks, r.risk) == Some(AddRecord(a, r).value.risks)
    ensures CountApproval(a.approvals, r.approval) == Some(AddRecord(a, r).value.approvals)
    ensures CountPolicy(a.policy, r.matchedDefault) == AddRecord(a, r).value.policy
  {
    hide CountDecision, CountRisk, CountApproval, CountPolicy, ObserveOperational;
  }

  lemma OneMoreTallied(start: EvaluationAggregate, a: EvaluationAggregate, log: seq<Request>, q: Request)
    requires CountersValid(a) && CategoriesTallied(start, a, log) && AddRecord(a, q.record).Ok?
    ensures CategoriesTallied(start, AddRecord(a, q.record).value, log + [q])
  {
    hide AddRecord, CountDecision, CountRisk, CountApproval, CountPolicy, DecisionTally, RiskTally, ApprovalTally, DefaultTally, ValidRestored;
    AddedCategories(a, q.record);
    DecisionCounted(a.decisions, q.record.decision);
    RiskCounted(a.risks, q.record.risk);
    ApprovalCounted(a.approvals, q.record.approval);
    PolicyCounted(a.policy, q.record.matchedDefault);
    TallySnoc(log, q);
  }

  lemma ReducedAggregate(x: Reduced, r: Record, f: Facts)
    requires Reduce(x, r, f).Ok?
    ensures AddRecord(x.aggregate, r) == Ok(Reduce(x, r, f).value.aggregate)
  {
    hide AddRecord, Observed;
  }

  lemma NothingTallied(a: EvaluationAggregate)
    ensures CategoriesTallied(a, a, [])
  {
  }

  /** After folding any log, every counter of the four categories equals its start value plus the requests of the log that
      carried its very value. */
  lemma {:induction false} CategoriesAreTallies(start: Reduced, log: seq<Request>)
    requires CountersValid(start.aggregate) && FoldLog(start, log).Ok?
    ensures CategoriesTallied(start.aggregate, FoldLog(start, log).value.aggregate, log)
    ensures CountersValid(FoldLog(start, log).value.aggregate)
  {
    hide CountersValid, CategoriesTallied, AddRecord, Reduce;
    if log == [] {
      NothingTallied(start.aggregate);
    } else {
      var init, q := log[..|log| - 1], log[|log| - 1];
      var x := FoldLog(start, init).value;
      assert log == init + [q];
      CategoriesAreTallies(start, init);
      ReducedAggregate(x, q.record, q.facts);
      OneMoreTallied(start.aggregate, x.aggregate, init, q);
      AddRecordKeepsCounters(x.aggregate, q.record);
    }
  }

  // ---- Times --------------------------------------------------------------------------------------------------

  predicate ObservedAt(log: seq<Request>, at: Instant) {
    exists k :: 0 <= k < |log| && log[k].record.timestamp == at
  }

  /** The first time is the earliest of the requests' and of what was first before; the last is the latest of the requests',
      of what was last before and of the zero time. */
  predicate TimesAre(start: EvaluationAggregate, log: seq<Request>, a: EvaluationAggregate) {
    && (forall k | 0 <= k < |log| :: a.firstObservedAt <= log[k].record.timestamp <= a.lastObservedAt)
    && (start.firstObservedAt != 0 || log == [] ==> a.firstObservedAt <= start.firstObservedAt)
    && (a.firstObservedAt == start.firstObservedAt || ObservedAt(log, a.firstObservedAt))
    && start.lastObservedAt <= a.lastObservedAt
    && (a.lastObservedAt == start.lastObservedAt || ObservedAt(log, a.lastObservedAt))
    && (log != [] ==> a.firstObservedAt != 0)
  }

  lemma OneMoreTime(start: EvaluationAggregate, log: seq<Request>, a: EvaluationAggregate, q: Request)
    requires TimesAre(start, log, a) && AddRecord(a, q.record).Ok? && (start.recordCount == 0 ==> start.firstObservedAt == 0)
    requires start.firstObservedAt == 0 ==> start.recordCount == 0
    ensures TimesAre(start, log + [q], AddRecord(a, q.record).value)
  {
    hide AddRecord;
    TimesAfter(a, q.record);
    var next, b := log + [q], AddRecord(a, q.record).value;
    assert next[|log|] == q && forall k | 0 <= k < |log| :: next[k] == log[k];
    if ObservedAt(log, a.firstObservedAt) {
      var k :| 0 <= k < |log| && log[k].record.timestamp == a.firstObservedAt;
      assert next[k].record.timestamp == a.firstObservedAt;
    }
    if ObservedAt(log, a.lastObservedAt) {
      var k :| 0 <= k < |log| && log[k].record.timestamp == a.lastObservedAt;
      assert next[k].record.timestamp == a.lastObservedAt;
    }
  }

  lemma {:induction false} TimesAreObserved(start: Reduced, log: seq<Request>)
    requires TimesOrdered(start.aggregate) && FoldLog(start, log).Ok?
    ensures TimesAre(start.aggregate, log, FoldLog(start, log).value.aggregate)
  {
    hide AddRecord, Reduce, TimesAre;
    if log == [] {
      NoTimeYet(start.aggregate);
    } else {
      var init, q := log[..|log| - 1], log[|log| - 1];
      assert log == init + [q];
      TimesAreObserved(start, init);
      ReducedAggregate(FoldLog(start, init).value, q.record, q.facts);
      OneMoreTime(start.aggregate, init, FoldLog(start, init).value.aggregate, q);
    }
  }

  lemma NoTimeYet(a: EvaluationAggregate)
    ensures TimesAre(a, [], a)
  {
  }

  // ---- Durations and statuses ---------------------------------------------------------------------------------

  function SamplesOf(log: seq<Request>): (s: seq<Sample>)
    ensures |s| == |log|
  {
    if log == [] then []
    else
      SamplesOf(log[..|log| - 1]) + [Sample(ReadDuration(log[|log| - 1].record.durationNanos), log[|log| - 1].record.spanStatus)]
  }

  lemma AddedTiming(a: EvaluationAggregate, r: Record)
    requires AddRecord(a, r).Ok?
    ensures ObserveOperational(a.durations, a.statuses, ReadDuration(r.durationNanos), r.spanStatus)
         == Ok((AddRecord(a, r).value.durations, AddRecord(a, r).value.statuses))
  {
    hide ObserveOperational, CountDecision, CountRisk, CountApproval, CountPolicy;
  }

  /** A new run's durations and statuses are the fold of what its requests' duration texts and statuses say. */
  lemma {:induction false} TimingIsFold(environment: string, log: seq<Request>)
    requires FoldLog(Empty(environment), log).Ok?
    ensures var a := FoldLog(Empty(environment), log).value.aggregate; FoldStream(SamplesOf(log)) == Some((a.durations, a.statuses))
  {
    hide Reduce, AddRecord, ObserveOperational;
    if log != [] {
      var init, q := log[..|log| - 1], log[|log| - 1];
      var x := FoldLog(Empty(environment), init).value;
      TimingIsFold(environment, init);
      ReducedAggregate(x, q.record, q.facts);
      AddedTiming(x.aggregate, q.record);
      assert SamplesOf(log)[..|init|] == SamplesOf(init);
    }
  }

  // ---- Entries ------------------------------------------------------------------------------------------------

  /** The requests with a fingerprint, in order. */
  function RequestsOf(log: seq<Request>, id: Id): seq<Request> {
    if log == [] then []
    else RequestsOf(log[..|log| - 1], id) + (if log[|log| - 1].record.fingerprintId == id then [log[|log| - 1]] else [])
  }

  function FactsOf(reqs: seq<Request>): (s: seq<FactSample>)
    ensures |s| == |reqs|
  {
    if reqs == [] then []
    else
      var q := reqs[|reqs| - 1];
      FactsOf(reqs[..|reqs| - 1]) + [FactSample(ReadDuration(q.record.durationNanos), q.record.spanStatus, q.facts)]
  }

  function StatedOf(reqs: seq<Request>): (s: seq<F.Stated>)
    ensures |s| == |reqs|
  {
    if reqs == [] then [] else StatedOf(reqs[..|reqs| - 1]) + [F.Stated(reqs[|reqs| - 1].facts.fidelity, reqs[|reqs| - 1].facts.layer)]
  }

  /** The entry is these requests': their fingerprint and behavior, their number, and the fold of what they measured, stated
      and reported. */
  ghost predicate EntryStandsFor(e: BehaviorEntry, reqs: seq<Request>) {
    && e.observations == |reqs|
    && (forall k | 0 <= k < |reqs| :: reqs[k].record.fingerprintId == e.fingerprintId && reqs[k].record.behavior == e.behavior)
    && PlausibleFactStream(FactsOf(reqs)) && FoldSummary(FactsOf(reqs)) == Some(e.operational)
    && F.FoldStream(StatedOf(reqs)) == Some(e.fidelity)
  }

  ghost predicate EntryAt(entries: map<Id, BehaviorEntry>, log: seq<Request>, id: Id) {
    && (id in entries <==> RequestsOf(log, id) != [])
    && (id in entries ==> entries[id].fingerprintId == id && EntryStandsFor(entries[id], RequestsOf(log, id)))
  }

  /** Every behavior's entry is the fold of its requests, and there is one for every fingerprint requested. */
  ghost predicate EntriesStandFor(entries: map<Id, BehaviorEntry>, log: seq<Request>) {
    forall id :: EntryAt(entries, log, id)
  }

  lemma RequestsSnoc(log: seq<Request>, q: Request, id: Id)
    ensures RequestsOf(log + [q], id) == if q.record.fingerprintId == id then RequestsOf(log, id) + [q] else RequestsOf(log, id)
  {
    assert (log + [q])[..|log|] == log;
  }

  lemma FactsSnoc(reqs: seq<Request>, q: Request)
    ensures FactsOf(reqs + [q]) == FactsOf(reqs) + [FactSample(ReadDuration(q.record.durationNanos), q.record.spanStatus, q.facts)]
    ensures StatedOf(reqs + [q]) == StatedOf(reqs) + [F.Stated(q.facts.fidelity, q.facts.layer)]
  {
    hide ReadDuration;
    assert (reqs + [q])[..|reqs|] == reqs;
  }

  lemma FoldSnoc(stream: seq<FactSample>, s: OperationalSummary, x: FactSample)
    requires FoldSummary(stream) == Some(s)
    ensures FoldSummary(stream + [x]) == Outcome(Observe(s, x.duration, x.status, x.facts))
  {
    hide Observe;
    assert (stream + [x])[..|stream|] == stream;
  }

  lemma StatedSnoc(stream: seq<F.Stated>, b: F.BehaviorFidelity, x: F.Stated)
    requires F.FoldStream(stream) == Some(b)
    ensures F.FoldStream(stream + [x]) == F.Observe(b, x.fidelity, x.layer)
  {
    hide F.Observe;
    assert (stream + [x])[..|stream|] == stream;
  }

  /** One more of its requests. */
  lemma EntryOneMore(e: BehaviorEntry, reqs: seq<Request>, q: Request)
    requires EntryStandsFor(e, reqs) && ObservedEntry(e, q.record, q.facts).Ok?
    requires q.record.fingerprintId == e.fingerprintId && q.record.behavior == e.behavior && ValidFacts(q.facts)
    ensures EntryStandsFor(ObservedEntry(e, q.record, q.facts).value, reqs + [q])
    ensures ObservedEntry(e, q.record, q.facts).value.fingerprintId == e.fingerprintId
  {
    hide Observe, F.Observe, ReadDuration, FoldSummary, F.FoldStream, FactsOf, StatedOf, PlausibleFacts, ValidFacts;
    ObservedSamplePlausible(e, q.record, q.facts);
    SampleSays(q.record, q.facts);
    FactsSnoc(reqs, q);
    FoldSnoc(FactsOf(reqs), e.operational, FactSample(ReadDuration(q.record.durationNanos), q.record.spanStatus, q.facts));
    StatedSnoc(StatedOf(reqs), e.fidelity, F.Stated(q.facts.fidelity, q.facts.layer));
  }

  lemma SampleSays(r: Record, f: Facts)
    ensures SampleOf(r, f) == FactSample(ReadDuration(r.durationNanos), r.spanStatus, f)
  {
  }

  lemma FreshStandsForNothing(r: Record)
    ensures EntryStandsFor(FreshEntry(r), [])
  {
  }

  lemma CompleteObserves(x: Reduced, q: Request)
    requires Reduce(x, q.record, q.facts).Ok? && Reduce(x, q.record, q.facts).value.collector.complete
    ensures var id := q.record.fingerprintId;
            var e := if id in x.collector.entries then x.collector.entries[id] else FreshEntry(q.record);
            && (id in x.collector.entries ==> e.behavior == q.record.behavior)
            && ObservedEntry(e, q.record, q.facts).Ok?
            && Reduce(x, q.record, q.facts).value.collector.entries == x.collector.entries[id := ObservedEntry(e, q.record, q.facts).value]
            && x.collector.complete && ValidFacts(q.facts)
            && Reduce(x, q.record, q.facts).value.collector.observations == x.collector.observations + 1
  {
    hide AddRecord, Observe, F.Observe, ReadDuration, ValidIdentity, ValidFacts;
  }

  lemma EntriesOneMore(x: Reduced, log: seq<Request>, q: Request)
    requires EntriesStandFor(x.collector.entries, log)
    requires Reduce(x, q.record, q.facts).Ok? && Reduce(x, q.record, q.facts).value.collector.complete
    ensures EntriesStandFor(Reduce(x, q.record, q.facts).value.collector.entries, log + [q])
  {
    hide Reduce, ObservedEntry, EntryStandsFor, RequestsOf, FreshEntry;
    CompleteObserves(x, q);
    var id := q.record.fingerprintId;
    var e := if id in x.collector.entries then x.collector.entries[id] else FreshEntry(q.record);
    assert EntryAt(x.collector.entries, log, id);
    FreshSays(q.record);
    FreshStandsForNothing(q.record);
    EntryOneMore(e, RequestsOf(log, id), q);
    forall k ensures EntryAt(Reduce(x, q.record, q.facts).value.collector.entries, log + [q], k) {
      assert EntryAt(x.collector.entries, log, k);
      RequestsSnoc(log, q, k);
    }
  }

  lemma FreshSays(r: Record)
    ensures FreshEntry(r).fingerprintId == r.fingerprintId && FreshEntry(r).behavior == r.behavior
  {
  }

  /** What a new run's collector holds of a log: the first `observations` requests are observed, the rest came after it
      saturated. */
  ghost predicate HoldsRecords(c: CollectorState, log: seq<Request>) {
    && c.observations <= |log| && EntriesStandFor(c.entries, log[..c.observations])
    && (c.complete ==> c.observations == |log|)
  }

  lemma NothingHeld(environment: string)
    ensures HoldsRecords(NewCollector(environment), [])
  {
  }

  lemma HoldsOneMore(x: Reduced, log: seq<Request>, q: Request)
    requires HoldsRecords(x.collector, log) && Reduce(x, q.record, q.facts).Ok?
    ensures HoldsRecords(Reduce(x, q.record, q.facts).value.collector, log + [q])
  {
    hide Reduce, EntriesStandFor;
    ReduceMoves(x, q.record, q.facts);
    var y := Reduce(x, q.record, q.facts).value.collector;
    if y.complete {
      assert log[..x.collector.observations] == log && (log + [q])[..y.observations] == log + [q];
      EntriesOneMore(x, log, q);
    } else {
      assert (log + [q])[..y.observations] == log[..y.observations];
    }
  }

  /** Every entry of a new run's collector is the fold, in order, of the requests of the log that carried its fingerprint, up
      to the one that saturated it if any did: their durations, statuses, codes, tokens, fidelity and layers, and no
      others'. */
  lemma {:induction false} EntriesAreTheirRequests(environment: string, log: seq<Request>)
    requires FoldLog(Empty(environment), log).Ok?
    ensures HoldsRecords(FoldLog(Empty(environment), log).value.collector, log)
  {
    hide Reduce, HoldsRecords;
    if log == [] {
      NothingHeld(environment);
    } else {
      var init, q := log[..|log| - 1], log[|log| - 1];
      assert log == init + [q];
      EntriesAreTheirRequests(environment, init);
      HoldsOneMore(FoldLog(Empty(environment), init).value, init, q);
    }
  }

  // ---- Observations -------------------------------------------------------------------------------------------

  /** The k-th retained row is its request's, and calls the behavior new exactly if no earlier observed request had the
      fingerprint. */
  lemma ObservationsAreTheirRequests(environment: string, log: seq<Request>, k: nat)
    requires FoldLog(Empty(environment), log).Ok? && k < |log|
    ensures var q, before := log[k], FoldLog(Empty(environment), log[..k]);
            && before.Ok? && before.value.collector.observations <= k
            && Observations(Empty(environment), log)[k]
               == Observation(q.sequence, q.record.fingerprintId, q.record.traceId, q.record.spanId, q.record.parentSpanId,
                              RequestsOf(log[..before.value.collector.observations], q.record.fingerprintId) == [])
  {
    hide FoldLog, EntryStandsFor, RequestsOf;
    FoldPrefix(Empty(environment), log, k);
    EntriesAreTheirRequests(environment, log[..k]);
    var c := FoldLog(Empty(environment), log[..k]).value.collector;
    assert log[..k][..c.observations] == log[..c.observations];
    assert EntryAt(c.entries, log[..c.observations], log[k].record.fingerprintId);
    ObservationAt(Empty(environment), log, k);
  }

  lemma {:induction false} ObservationAt(start: Reduced, log: seq<Request>, k: nat)
    requires k < |log| && FoldLog(start, log[..k]).Ok?
    ensures Observations(start, log)[k] == ObservationFor(log[k], FoldLog(start, log[..k]).value.collector)
  {
    hide FoldLog;
    var init := log[..|log| - 1];
    if k < |init| {
      assert init[..k] == log[..k];
      ObservationAt(start, init, k);
    }
  }

  // ---- Over executions ----------------------------------------------------------------------------------------

  /** Whatever the run began with, the stored aggregate's counters are those it began with plus the tallies of the accepted
      requests, and its times are the earliest and latest. */
  lemma StoredCountersAreTallies(o: Origin, states: seq<System>, actions: seq<Action>, i: nat)
    requires Execution(o, states, actions) && i < |states| && states[i].d.evidence.Some?
    ensures CategoriesTallied(o.start.aggregate, states[i].d.evidence.value.aggregate, states[i].log)
    ensures TimesAre(o.start.aggregate, states[i].log, states[i].d.evidence.value.aggregate)
  {
    hide *;
    InvariantAt(o, states, actions, i);
    InvariantSays(o, states[i], 0);
    OriginSays(o, states[i]);
    FoldSays(o, states[i]);
    OriginIsValid(o);
    SoundParts(o.start);
    StoredIsAfter(o, states[i]);
    StoredAggregate(o, states[i]);
    CategoriesAreTallies(o.start, states[i].log);
    TimesAreObserved(o.start, states[i].log);
  }

  lemma SoundParts(x: Reduced)
    requires ValidReduced(x)
    ensures CountersValid(x.aggregate) && TimesOrdered(x.aggregate)
  {
    hide CountersValid, TimesOrdered, ValidCollector, IdentitiesValid, CountsAgree;
  }

  lemma StoredAggregate(o: Origin, s: System)
    requires EvidenceIsFold(o, s) && s.d.evidence.Some?
    ensures FoldLog(o.start, s.log).Ok? && s.d.evidence.value.aggregate == FoldLog(o.start, s.log).value.aggregate
    ensures s.d.evidence.value.snapshot == SnapshotOf(FoldLog(o.start, s.log).value.collector)
  {
    hide FoldLog, SnapshotOf, FedByTimely;
  }

  /** Every entry of a stored snapshot is its requests', and every observed request has one. */
  ghost predicate SnapshotHolds(s: BehaviorSnapshot, log: seq<Request>) {
    && s.observations <= |log| && (s.complete ==> s.observations == |log|)
    && (forall k | 0 <= k < |s.entries| ::
          RequestsOf(log[..s.observations], s.entries[k].fingerprintId) != []
          && EntryStandsFor(s.entries[k], RequestsOf(log[..s.observations], s.entries[k].fingerprintId)))
    && forall id :: RequestsOf(log[..s.observations], id) != [] ==> EntryFor(s.entries, id)
  }

  ghost predicate EntryFor(entries: seq<BehaviorEntry>, id: Id) {
    exists k :: 0 <= k < |entries| && entries[k].fingerprintId == id
  }

  lemma SnapshotOfHolds(c: CollectorState, log: seq<Request>)
    requires HoldsRecords(c, log)
    ensures SnapshotHolds(SnapshotOf(c), log)
  {
    hide EntryStandsFor, RequestsOf;
    var s := SnapshotOf(c);
    var ids := SortIds(c.entries.Keys);
    forall k | 0 <= k < |s.entries|
      ensures RequestsOf(log[..s.observations], s.entries[k].fingerprintId) != []
      ensures EntryStandsFor(s.entries[k], RequestsOf(log[..s.observations], s.entries[k].fingerprintId))
    {
      assert EntryAt(c.entries, log[..c.observations], ids[k]);
    }
    forall id | RequestsOf(log[..s.observations], id) != [] ensures EntryFor(s.entries, id) {
      assert EntryAt(c.entries, log[..c.observations], id);
      assert id in Elems(ids);
      var k :| 0 <= k < |ids| && ids[k] == id;
      assert EntryAt(c.entries, log[..c.observations], ids[k]);
      assert s.entries[k].fingerprintId == id;
    }
  }

  /** So every counter of the entry counts exactly what its requests said. */
  lemma EntryCounts(e: BehaviorEntry, reqs: seq<Request>)
    requires EntryStandsFor(e, reqs)
    ensures CountsStream(e.operational, FactsOf(reqs)) && F.CountsStated(e.fidelity, StatedOf(reqs))
  {
    hide FoldSummary, F.FoldStream, CountsStream, F.CountsStated, PlausibleFactStream;
    FoldCountsStream(FactsOf(reqs));
    F.FoldCountsStated(StatedOf(reqs));
  }

  /** At every moment of every execution of a run that began with nothing, every stored entry is the fold of the accepted
      requests with its fingerprint, in order, and counts exactly what they said. */
  lemma StoredEntriesAreTheirRequests(o: Origin, states: seq<System>, actions: seq<Action>, i: nat)
    requires Execution(o, states, actions) && i < |states| && states[i].d.evidence.Some? && !o.stored
    ensures SnapshotHolds(states[i].d.evidence.value.snapshot, states[i].log)
    ensures SnapshotCounts(states[i].d.evidence.value.snapshot, states[i].log)
  {
    hide *;
    InvariantAt(o, states, actions, i);
    InvariantSays(o, states[i], 0);
    OriginSays(o, states[i]);
    NewStart(o);
    StoredAggregate(o, states[i]);
    EntriesAreTheirRequests(o.start.aggregate.environment, states[i].log);
    SnapshotOfHolds(FoldLog(o.start, states[i].log).value.collector, states[i].log);
    HoldsCounts(states[i].d.evidence.value.snapshot, states[i].log);
  }

  ghost predicate SnapshotCounts(s: BehaviorSnapshot, log: seq<Request>) {
    s.observations <= |log| &&
    forall k | 0 <= k < |s.entries| ::
      && CountsStream(s.entries[k].operational, FactsOf(RequestsOf(log[..s.observations], s.entries[k].fingerprintId)))
      && F.CountsStated(s.entries[k].fidelity, StatedOf(RequestsOf(log[..s.observations], s.entries[k].fingerprintId)))
  }

  lemma HoldsCounts(s: BehaviorSnapshot, log: seq<Request>)
    requires SnapshotHolds(s, log)
    ensures SnapshotCounts(s, log)
  {
    hide EntryStandsFor, CountsStream, F.CountsStated, RequestsOf;
    forall k | 0 <= k < |s.entries|
      ensures CountsStream(s.entries[k].operational, FactsOf(RequestsOf(log[..s.observations], s.entries[k].fingerprintId)))
      ensures F.CountsStated(s.entries[k].fidelity, StatedOf(RequestsOf(log[..s.observations], s.entries[k].fingerprintId)))
    {
      EntryCounts(s.entries[k], RequestsOf(log[..s.observations], s.entries[k].fingerprintId));
    }
  }

  lemma NewStart(o: Origin)
    requires ValidOrigin(o) && !o.stored
    ensures o.start == Empty(o.start.aggregate.environment)
  {
    hide ValidReduced;
  }
}
