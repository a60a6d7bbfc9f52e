/** Durations and statuses are counted twice, in the run's aggregate and per behavior: the two accounts agree, and
    platform/operational_comparison.go's sums over a run's behaviors recover the aggregate's. */
module Conservation {
  import opened Bounded
  import opened Ordering
  import opened Operational
  import opened BehaviorOperational
  import F = Fidelity
  import opened Aggregate
  import opened Collector
  import opened Evidence

  /** The duration and status part of a summary. */
  datatype Timing = Timing(durations: DurationSummary, statuses: SpanStatusCounts)

  const NO_TIMING := Timing(NO_DURATIONS, NO_STATUSES)

  function AddTiming(a: Timing, b: Timing): Option<Timing> {
    match (AddDurations(a.durations, b.durations), AddStatuses(a.statuses, b.statuses))
    case (Some(d), Some(c)) => Some(Timing(d, c))
    case _ => None
  }

  /** Addition over outcomes: an overflow on either side stays one. */
  function PlusTiming(a: Option<Timing>, b: Option<Timing>): Option<Timing> {
    if a.Some? && b.Some? then AddTiming(a.value, b.value) else None
  }

  predicate NormalTiming(t: Option<Timing>) {
    t.Some? ==> NormalDurations(t.value.durations)
  }

  lemma AddTimingCommutes(a: Timing, b: Timing)
    requires NormalDurations(a.durations) && NormalDurations(b.durations)
    ensures AddTiming(a, b) == AddTiming(b, a) && NormalTiming(AddTiming(a, b))
  {
  }

  lemma PlusTimingCommutes(a: Option<Timing>, b: Option<Timing>)
    requires NormalTiming(a) && NormalTiming(b)
    ensures PlusTiming(a, b) == PlusTiming(b, a) && NormalTiming(PlusTiming(a, b))
  {
    if a.Some? && b.Some? {
      AddTimingCommutes(a.value, b.value);
    }
  }

  lemma AddStatusesAssociates(a: SpanStatusCounts, b: SpanStatusCounts, c: SpanStatusCounts)
    ensures AddStatuses(a, b).Some? && AddStatuses(b, c).Some? ==>
              AddStatuses(AddStatuses(a, b).value, c) == AddStatuses(a, AddStatuses(b, c).value)
    ensures AddStatuses(a, b).None? && AddStatuses(b, c).Some? ==> AddStatuses(a, AddStatuses(b, c).value).None?
    ensures AddStatuses(a, b).Some? && AddStatuses(b, c).None? ==> AddStatuses(AddStatuses(a, b).value, c).None?
  {
  }

  lemma PlusTimingAssociates(a: Option<Timing>, b: Option<Timing>, c: Option<Timing>)
    ensures PlusTiming(PlusTiming(a, b), c) == PlusTiming(a, PlusTiming(b, c))
  {
    if a.Some? && b.Some? && c.Some? {
      hide AddDurations, AddStatuses;
      AddDurationsAssociates(a.value.durations, b.value.durations, c.value.durations);
      AddStatusesAssociates(a.value.statuses, b.value.statuses, c.value.statuses);
    }
  }

  lemma NoTimingIsIdentity(a: Timing)
    requires NormalDurations(a.durations)
    ensures PlusTiming(Some(a), Some(NO_TIMING)) == Some(a)
  {
  }

  /** Swapping what is added when: (a + b) + c as (a + c) + b. */
  lemma PlusTimingSwaps(a: Option<Timing>, b: Option<Timing>, c: Option<Timing>)
    requires NormalTiming(b) && NormalTiming(c)
    ensures PlusTiming(PlusTiming(a, b), c) == PlusTiming(PlusTiming(a, c), b)
  {
    hide PlusTiming;
    PlusTimingAssociates(a, b, c);
    PlusTimingCommutes(b, c);
    PlusTimingAssociates(a, c, b);
  }

  // ---- Sums over behaviors ------------------------------------------------------------------------------------

  function TimingOf(e: BehaviorEntry): Timing {
    Timing(e.operational.durations, e.operational.spanStatus)
  }

  ghost predicate AllNormal(entries: map<Id, BehaviorEntry>) {
    forall id {:trigger entries[id]} | id in entries :: NormalDurations(entries[id].operational.durations)
  }

  ghost function TimingSum(entries: map<Id, BehaviorEntry>): Option<Timing> {
    if entries == map[] then Some(NO_TIMING)
    else
      var id :| id in entries;
      PlusTiming(TimingSum(entries - {id}), Some(TimingOf(entries[id])))
  }

  lemma {:induction false} TimingSumIsNormal(entries: map<Id, BehaviorEntry>)
    requires AllNormal(entries)
    ensures NormalTiming(TimingSum(entries))
    decreases |entries|
  {
    hide PlusTiming;
    if entries != map[] {
      var k :| k in entries && TimingSum(entries) == PlusTiming(TimingSum(entries - {k}), Some(TimingOf(entries[k])));
      TimingSumIsNormal(entries - {k});
      PlusTimingCommutes(TimingSum(entries - {k}), Some(TimingOf(entries[k])));
    }
  }

  /** The sum does not depend on which entry is taken first. */
  lemma {:induction false} TimingSumAt(entries: map<Id, BehaviorEntry>, id: Id)
    requires AllNormal(entries) && id in entries
    ensures TimingSum(entries) == PlusTiming(TimingSum(entries - {id}), Some(TimingOf(entries[id])))
    decreases |entries|
  {
    hide PlusTiming;
    var k :| k in entries && TimingSum(entries) == PlusTiming(TimingSum(entries - {k}), Some(TimingOf(entries[k])));
    if k != id {
      TimingSumAt(entries - {k}, id);
      TimingSumAt(entries - {id}, k);
      assert entries - {k} - {id} == entries - {id} - {k};
      PlusTimingSwaps(TimingSum(entries - {k} - {id}), Some(TimingOf(entries[id])), Some(TimingOf(entries[k])));
    }
  }

  // ---- One record ---------------------------------------------------------------------------------------------

  function OneTiming(duration: DurationField, status: SpanStatus): Option<Timing> {
    match ObserveOperational(NO_DURATIONS, NO_STATUSES, duration, status)
    case Ok(pair) => Some(Timing(pair.0, pair.1))
    case Err(_) => None
  }

  lemma ObserveIsAddTiming(t: Timing, duration: DurationField, status: SpanStatus)
    requires NormalDurations(t.durations)
    ensures NormalTiming(OneTiming(duration, status))
    ensures var r := ObserveOperational(t.durations, t.statuses, duration, status);
            r.Ok? ==> PlusTiming(Some(t), OneTiming(duration, status)) == Some(Timing(r.value.0, r.value.1))
  {
    if ObserveOperational(t.durations, t.statuses, duration, status).Ok? {
      CountStatusIsAdd(t.statuses, status);
      FoldDurationIsAdd(t.durations, duration);
    }
  }

  lemma ObservedEntryTiming(e: BehaviorEntry, r: Record, f: Facts)
    requires NormalDurations(e.operational.durations) && ObservedEntry(e, r, f).Ok?
    ensures PlusTiming(Some(TimingOf(e)), OneTiming(ReadDuration(r.durationNanos), r.spanStatus))
            == Some(TimingOf(ObservedEntry(e, r, f).value))
    ensures NormalDurations(ObservedEntry(e, r, f).value.operational.durations)
  {
    hide PlusTiming, OneTiming;
    ObserveIsAddTiming(TimingOf(e), ReadDuration(r.durationNanos), r.spanStatus);
    NormalStays(TimingOf(e), ReadDuration(r.durationNanos), r.spanStatus);
  }

  lemma NormalStays(t: Timing, duration: DurationField, status: SpanStatus)
    requires NormalDurations(t.durations)
    ensures var r := ObserveOperational(t.durations, t.statuses, duration, status); r.Ok? ==> NormalDurations(r.value.0)
  {
  }

  lemma AggregateTiming(a: EvaluationAggregate, r: Record)
    requires NormalDurations(a.durations) && AddRecord(a, r).Ok?
    ensures PlusTiming(Some(Timing(a.durations, a.statuses)), OneTiming(ReadDuration(r.durationNanos), r.spanStatus))
            == Some(Timing(AddRecord(a, r).value.durations, AddRecord(a, r).value.statuses))
    ensures NormalDurations(AddRecord(a, r).value.durations)
  {
    hide PlusTiming, OneTiming, ReadDuration;
    ObserveIsAddTiming(Timing(a.durations, a.statuses), ReadDuration(r.durationNanos), r.spanStatus);
    NormalStays(Timing(a.durations, a.statuses), ReadDuration(r.durationNanos), r.spanStatus);
  }

  // ---- Conservation -------------------------------------------------------------------------------------------

  /** The behaviors' durations and statuses add up to the aggregate's, with no overflow on the way. */
  ghost predicate Conserves(x: Reduced) {
    && AllNormal(x.collector.entries) && NormalDurations(x.aggregate.durations)
    && TimingSum(x.collector.entries) == Some(Timing(x.aggregate.durations, x.aggregate.statuses))
  }

  lemma EmptyConserves(environment: string)
    ensures Conserves(Empty(environment))
  {
  }

  /** Putting an observed entry in place of the one it came from adds the record's own timing to the sum. */
  lemma PutAddsTiming(entries: map<Id, BehaviorEntry>, id: Id, before: BehaviorEntry, after: BehaviorEntry, one: Option<Timing>)
    requires AllNormal(entries) && NormalTiming(one) && NormalDurations(before.operational.durations)
    requires NormalDurations(after.operational.durations)
    requires id in entries ==> before == entries[id]
    requires id !in entries ==> TimingOf(before) == NO_TIMING
    requires PlusTiming(Some(TimingOf(before)), one) == Some(TimingOf(after))
    ensures AllNormal(entries[id := after])
    ensures TimingSum(entries[id := after]) == PlusTiming(TimingSum(entries), one)
  {
    hide PlusTiming, NO_TIMING;
    var rest := TimingSum(entries - {id});
    TimingSumAt(entries[id := after], id);
    assert entries[id := after] - {id} == entries - {id};
    if id in entries {
      TimingSumAt(entries, id);
    } else {
      AbsentRemoved(entries, id);
      TimingSumIsNormal(entries);
      SumPlusNothing(TimingSum(entries));
    }
    PlusTimingAssociates(rest, Some(TimingOf(before)), one);
  }

  lemma SumPlusNothing(t: Option<Timing>)
    requires NormalTiming(t)
    ensures PlusTiming(t, Some(NO_TIMING)) == t
  {
    if t.Some? {
      NoTimingIsIdentity(t.value);
    }
  }

  ghost predicate EntryBefore(c: CollectorState, r: Record, e: BehaviorEntry) {
    e == if r.fingerprintId in c.entries then c.entries[r.fingerprintId] else FreshEntry(r)
  }

  lemma CompleteObservation(c: CollectorState, r: Record, f: Facts) returns (before: BehaviorEntry)
    requires Observed(c, r, f).0.complete && Observed(c, r, f).1.None?
    ensures EntryBefore(c, r, before) && ObservedEntry(before, r, f).Ok?
    ensures Observed(c, r, f).0.entries == c.entries[r.fingerprintId := ObservedEntry(before, r, f).value]
  {
    hide ObservedEntry;
    before := if r.fingerprintId in c.entries then c.entries[r.fingerprintId] else FreshEntry(r);
  }

  lemma CompleteMeansObserved(x: Reduced, r: Record, f: Facts)
    requires Reduce(x, r, f).Ok? && Reduce(x, r, f).value.collector.complete
    ensures Observed(x.collector, r, f).0 == Reduce(x, r, f).value.collector && Observed(x.collector, r, f).1.None?
    ensures AddRecord(x.aggregate, r) == Ok(Reduce(x, r, f).value.aggregate)
  {
    hide AddRecord, ObservedEntry;
    forall e {:trigger ObservedEntry(e, r, f)} ensures ObservedEntry(e, r, f) != Err(ErrBehaviorCapacity) {
      EntryNeverLacksCapacity(e, r, f);
    }
  }

  lemma EntryNeverLacksCapacity(e: BehaviorEntry, r: Record, f: Facts)
    ensures ObservedEntry(e, r, f) != Err(ErrBehaviorCapacity)
  {
    hide Observe, F.Observe;
  }

  /** A record counted in both halves keeps the two accounts equal. */
  lemma ReduceConserves(x: Reduced, r: Record, f: Facts)
    requires Conserves(x) && Reduce(x, r, f).Ok? && Reduce(x, r, f).value.collector.complete
    ensures Conserves(Reduce(x, r, f).value)
  {
    hide PlusTiming, OneTiming, TimingSum, ObservedEntry, AddRecord, Observed, Reduce, ReadDuration;
    CompleteMeansObserved(x, r, f);
    var before := CompleteObservation(x.collector, r, f);
    var one := OneTiming(ReadDuration(r.durationNanos), r.spanStatus);
    ObservedEntryTiming(before, r, f);
    AggregateTiming(x.aggregate, r);
    ObserveIsAddTiming(TimingOf(before), ReadDuration(r.durationNanos), r.spanStatus);
    PutAddsTiming(x.collector.entries, r.fingerprintId, before, ObservedEntry(before, r, f).value, one);
  }

  // ---- Summing a run's entries --------------------------------------------------------------------------------

  /** addRun's inner loop as a left fold. */
  function AddEntries(entries: seq<BehaviorEntry>): Option<OperationalSummary> {
    if entries == [] then Some(EMPTY)
    else Plus(AddEntries(entries[..|entries| - 1]), Some(entries[|entries| - 1].operational))
  }

  function ListTiming(entries: seq<BehaviorEntry>): Option<Timing> {
    if entries == [] then Some(NO_TIMING)
    else PlusTiming(ListTiming(entries[..|entries| - 1]), Some(TimingOf(entries[|entries| - 1])))
  }

  datatype Tokens = Tokens(input: nat, output: nat, unsplit: nat)

  /** What the entries report, over unbounded integers. */
  function TokenTotals(entries: seq<BehaviorEntry>): Tokens {
    if entries == [] then Tokens(0, 0, 0)
    else
      var t, u := TokenTotals(entries[..|entries| - 1]), entries[|entries| - 1].operational.tokens;
      Tokens(t.input + u.input, t.output + u.output, t.unsplit + u.unsplit)
  }

  predicate TokensFit(t: Tokens) {
    t.input <= MAX_UINT64 && t.output <= MAX_UINT64 && t.unsplit <= MAX_UINT64
  }

  function SummaryTokens(s: OperationalSummary): Tokens {
    Tokens(s.tokens.input, s.tokens.output, s.tokens.unsplit)
  }

  lemma BucketsFitWithin(a: DurationBuckets, b: DurationBuckets, m: nat, n: nat)
    requires Total(a) <= m && Total(b) <= n && m + n <= MAX_UINT64
    ensures AddBuckets(a, b).Some?
  {
    forall i | 0 <= i < BUCKETS ensures a[i] + b[i] <= MAX_UINT64 {
      PartWithinTotal(a, i);
      PartWithinTotal(b, i);
    }
  }

  /** Of two summaries valid for m and n observations that fit together, everything but a duration total or a token total
      is bounded by the observations and cannot overflow. */
  lemma AddSucceedsIff(s: OperationalSummary, m: U64, t: OperationalSummary, n: U64)
    requires ValidSummary(s, m) && ValidSummary(t, n) && m + n <= MAX_UINT64
    ensures Add(s, t).Some? <==>
            AddDurations(s.durations, t.durations).Some?
            && TokensFit(Tokens(s.tokens.input + t.tokens.input, s.tokens.output + t.tokens.output, s.tokens.unsplit + t.tokens.unsplit))
    ensures AddStatuses(s.spanStatus, t.spanStatus).Some?
    ensures Add(s, t).Some? ==> AddTiming(Timing(s.durations, s.spanStatus), Timing(t.durations, t.spanStatus))
                                == Some(Timing(Add(s, t).value.durations, Add(s, t).value.spanStatus))
  {
    hide AddBuckets, SharpTotal, SumWithinBuckets, ExtremaInBuckets;
    BucketsFitWithin(s.buckets, t.buckets, m, n);
  }

  ghost predicate EntriesCounted(entries: seq<BehaviorEntry>) {
    (forall i | 0 <= i < |entries| :: ValidEntry(entries[i])) && EntryTotal(entries) <= MAX_UINT64
  }

  /** The running sum of valid entries, as far as the durations add up: defined exactly while the token totals fit, and
      then carrying exactly the entries' tokens and timing. */
  ghost predicate SumIsExact(entries: seq<BehaviorEntry>) {
    && (AddEntries(entries).Some? <==> TokensFit(TokenTotals(entries)))
    && (AddEntries(entries).Some? ==>
          var s := AddEntries(entries).value;
          && ValidSummary(s, EntryTotal(entries)) && SummaryTokens(s) == TokenTotals(entries)
          && Some(Timing(s.durations, s.spanStatus)) == ListTiming(entries))
  }

  lemma NothingAdded(entries: seq<BehaviorEntry>)
    requires |entries| == 0
    ensures SumIsExact(entries)
  {
    hide ValidSummary;
    EmptyIsValid();
  }

  lemma AddOneEntry(init: seq<BehaviorEntry>, e: BehaviorEntry, entries: seq<BehaviorEntry>)
    requires entries == init + [e] && EntriesCounted(entries) && SumIsExact(init) && ListTiming(entries).Some?
    ensures SumIsExact(entries)
  {
    hide ValidSummary, PlusTiming, AddDurations;
    assert entries[..|entries| - 1] == init && entries[|entries| - 1] == e;
    assert ValidEntry(entries[|entries| - 1]);
    if AddEntries(init).Some? {
      AddValidEntry(AddEntries(init).value, EntryTotal(init), e, ListTiming(entries));
    }
  }

  lemma AddValidEntry(s: OperationalSummary, m: U64, e: BehaviorEntry, timing: Option<Timing>)
    requires ValidSummary(s, m) && ValidEntry(e) && m + e.observations <= MAX_UINT64 && timing.Some?
    requires timing == PlusTiming(Some(Timing(s.durations, s.spanStatus)), Some(TimingOf(e)))
    ensures var t := Tokens(s.tokens.input + e.operational.tokens.input, s.tokens.output + e.operational.tokens.output,
                            s.tokens.unsplit + e.operational.tokens.unsplit);
            && (Add(s, e.operational).Some? <==> TokensFit(t))
            && (Add(s, e.operational).Some? ==>
                  var r := Add(s, e.operational).value;
                  ValidSummary(r, m + e.observations) && SummaryTokens(r) == t && Some(Timing(r.durations, r.spanStatus)) == timing)
  {
    hide ValidSummary, AddBuckets, AddHttp, AddDurations, AddStatuses;
    AddSucceedsIff(s, m, e.operational, e.observations);
    if Add(s, e.operational).Some? {
      AddKeepsValid(s, m, e.operational, e.observations);
    }
  }

  lemma {:induction false} EntriesAddUp(entries: seq<BehaviorEntry>)
    requires EntriesCounted(entries) && ListTiming(entries).Some?
    ensures SumIsExact(entries)
  {
    hide SumIsExact, PlusTiming;
    if entries == [] {
      NothingAdded(entries);
    } else {
      var init, e := entries[..|entries| - 1], entries[|entries| - 1];
      assert entries == init + [e];
      CountedBefore(entries);
      EntriesAddUp(init);
      AddOneEntry(init, e, entries);
    }
  }

  lemma CountedBefore(entries: seq<BehaviorEntry>)
    requires entries != [] && EntriesCounted(entries) && ListTiming(entries).Some?
    ensures EntriesCounted(entries[..|entries| - 1]) && ListTiming(entries[..|entries| - 1]).Some?
  {
    hide ValidEntry;
  }

  lemma OneMoreAmong(c: CollectorState, before: seq<Id>, id: Id)
    requires AllNormal(c.entries) && id in c.entries && id !in before
    ensures TimingSum(EntriesAmong(c, before + [id])) == PlusTiming(TimingSum(EntriesAmong(c, before)), Some(TimingOf(c.entries[id])))
  {
    hide PlusTiming;
    var m, n := EntriesAmong(c, before), EntriesAmong(c, before + [id]);
    assert n - {id} == m;
    TimingSumAt(n, id);
  }

  lemma NoTimingAmong(c: CollectorState, ids: seq<Id>)
    requires |ids| == 0
    ensures TimingSum(EntriesAmong(c, ids)) == Some(NO_TIMING)
  {
    assert EntriesAmong(c, ids) == map[];
  }

  lemma {:induction false} ListTimingAmong(c: CollectorState, ids: seq<Id>, s: seq<BehaviorEntry>, n: nat)
    requires Distinct(ids) && ListsEntries(c, ids, s) && AllNormal(c.entries) && n <= |ids|
    ensures ListTiming(s[..n]) == TimingSum(EntriesAmong(c, ids[..n]))
  {
    hide PlusTiming, EntriesAmong, TimingSum, AllNormal;
    if n == 0 {
      NoTimingAmong(c, ids[..0]);
    } else {
      ListTimingAmong(c, ids, s, n - 1);
      assert ids[..n] == ids[..n - 1] + [ids[n - 1]];
      assert s[..n][..n - 1] == s[..n - 1];
      OneMoreAmong(c, ids[..n - 1], ids[n - 1]);
    }
  }

  lemma SortedTiming(c: CollectorState)
    requires Bijection(c.entries, c.byBehavior) && AllNormal(c.entries)
    ensures ListTiming(SortedEntries(c.entries)) == TimingSum(c.entries)
  {
    hide *;
    SortedIdsListEntries(c);
    ListTimingWhole(c, SortIds(c.entries.Keys), SortedEntries(c.entries));
    EverythingAmong(c);
  }

  lemma ListTimingWhole(c: CollectorState, ids: seq<Id>, s: seq<BehaviorEntry>)
    requires Distinct(ids) && ListsEntries(c, ids, s) && AllNormal(c.entries)
    ensures ListTiming(s) == TimingSum(EntriesAmong(c, ids))
  {
    hide TimingSum, ListTiming, AllNormal, EntriesAmong;
    ListTimingAmong(c, ids, s, |ids|);
    assert ids[..|ids|] == ids && s[..|ids|] == s;
  }

  lemma SortedEntriesCounted(c: CollectorState)
    requires Bijection(c.entries, c.byBehavior) && EntriesValid(c.entries) && ObservationSum(c.entries) == c.observations
    ensures EntriesCounted(SortedEntries(c.entries)) && EntryTotal(SortedEntries(c.entries)) == c.observations
  {
    hide ValidEntry;
    SortedEntriesTotal(c);
    forall i | 0 <= i < |SortedEntries(c.entries)| ensures ValidEntry(SortedEntries(c.entries)[i]) {
      SortedEntryAt(c, i);
      assert EntryValidAt(c.entries, SortIds(c.entries.Keys)[i]);
    }
  }

  /** Summing the behaviors of a run whose two accounts agree succeeds if and only if its three token totals fit; then the
      sum carries exactly the aggregate's durations and statuses and every reported token. */
  lemma SnapshotSumIsAggregate(x: Reduced)
    requires ValidReduced(x) && Conserves(x)
    ensures var entries := SnapshotOf(x.collector).entries;
            && (AddEntries(entries).Some? <==> TokensFit(TokenTotals(entries)))
            && (AddEntries(entries).Some? ==>
                  && AddEntries(entries).value.durations == x.aggregate.durations
                  && AddEntries(entries).value.spanStatus == x.aggregate.statuses
                  && SummaryTokens(AddEntries(entries).value) == TokenTotals(entries))
  {
    hide SoundAggregate, EntriesCounted, EntriesValid, AddEntries, ListTiming, TimingSum, TokenTotals, ValidSummary, SortedEntries,
         AllNormal, IdentitiesValid, Bijection, CountsAgree;
    SortedTiming(x.collector);
    SortedEntriesCounted(x.collector);
    EntriesAddUp(SortedEntries(x.collector.entries));
  }

  // ---- One side of a comparison -------------------------------------------------------------------------------

  /** Whether Go's wrapping sum of the counters is positive. */
  predicate AnyCounted(total: nat) {
    total % TWO_TO_THE_64 > 0
  }

  predicate LatencyAvailable(s: OperationalSummary) {
    s.durations.count > 0
  }

  predicate ErrorsAvailable(s: OperationalSummary) {
    || AnyCounted(s.spanStatus.unset + s.spanStatus.ok + s.spanStatus.error)
    || AnyCounted(s.httpStatus.informational + s.httpStatus.success + s.httpStatus.redirection
                  + s.httpStatus.clientError + s.httpStatus.serverError)
  }

  predicate TokensAvailable(s: OperationalSummary) {
    s.tokens.observed > 0
  }

  /** On valid evidence the wrapping sums mean what they say: errors are unavailable exactly when no observation stated a
      span status and none stated an HTTP status. */
  lemma ErrorsAvailableMeans(s: OperationalSummary, n: U64)
    requires ValidSummary(s, n)
    ensures ErrorsAvailable(s) <==> s.spanStatus.unavailable != n || s.httpStatus.unavailable != n
  {
    hide SharpTotal, SumWithinBuckets, ExtremaInBuckets, Total;
    WithinWidth(s.spanStatus.unset + s.spanStatus.ok + s.spanStatus.error);
    WithinWidth(s.httpStatus.informational + s.httpStatus.success + s.httpStatus.redirection
                + s.httpStatus.clientError + s.httpStatus.serverError);
  }

  lemma WithinWidth(total: nat)
    ensures total <= MAX_UINT64 ==> (AnyCounted(total) <==> total > 0)
  {
  }

  function IncrementIf(n: U64, b: bool): U64 {
    if b then Increment(n) else n
  }

  class OperationalSide {
    var sum: OperationalSummary
    var latencyRuns: U64
    var errorRuns: U64
    var tokenRuns: U64

    constructor ()
      ensures sum == EMPTY && latencyRuns == errorRuns == tokenRuns == 0
    {
      sum := EMPTY;
      latencyRuns, errorRuns, tokenRuns := 0, 0, 0;
    }

    /** Folds one run's entries into the side: the run is summed on its own first, so a run whose own sum overflows
        changes nothing. */
    method AddRun(entries: seq<BehaviorEntry>) returns (ok: bool)
      modifies this
      ensures ok <==> Plus(Some(old(sum)), AddEntries(entries)).Some?
      ensures Some(sum) == if ok then Plus(Some(old(sum)), AddEntries(entries)) else Some(old(sum))
      ensures latencyRuns == IncrementIf(old(latencyRuns), ok && LatencyAvailable(AddEntries(entries).value))
      ensures errorRuns == IncrementIf(old(errorRuns), ok && ErrorsAvailable(AddEntries(entries).value))
      ensures tokenRuns == IncrementIf(old(tokenRuns), ok && TokensAvailable(AddEntries(entries).value))
    {
      var run := EMPTY;
      for i := 0 to |entries|
        invariant AddEntries(entries[..i]) == Some(run)
      {
        assert entries[..i + 1][..i] == entries[..i];
        var next := Add(run, entries[i].operational);
        if next.None? {
          OverflowStays(entries, i + 1);
          return false;
        }
        run := next.value;
      }
      assert entries[..|entries|] == entries;
      var total := Add(sum, run);
      if total.None? {
        return false;
      }
      sum := total.value;
      latencyRuns := IncrementIf(latencyRuns, LatencyAvailable(run));
      errorRuns := IncrementIf(errorRuns, ErrorsAvailable(run));
      tokenRuns := IncrementIf(tokenRuns, TokensAvailable(run));
      ok := true;
    }
  }

  lemma {:induction false} OverflowStays(entries: seq<BehaviorEntry>, n: nat)
    requires n <= |entries| && AddEntries(entries[..n]).None?
    ensures AddEntries(entries).None?
    decreases |entries| - n
  {
    hide Add;
    if n == |entries| {
      assert entries[..n] == entries;
    } else {
      assert entries[..n + 1][..n] == entries[..n];
      OverflowStays(entries, n + 1);
    }
  }
}
