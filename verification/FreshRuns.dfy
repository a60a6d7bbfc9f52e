/** A run that begins with nothing, fed with one new behavior per record, and the scenarios it goes through. */
module FreshRuns {
  import opened Bounded
  import opened Ordering
  import opened Codec
  import opened Operational
  import opened BehaviorOperational
  import F = Fidelity
  import opened Aggregate
  import opened Collector
  import opened Evidence
  import opened Runs
  import opened Counting
  import opened Retention
  import opened Ingest
  import opened Protocol
  import opened ProtocolSafety
  import opened ProtocolRuns
  import opened ControlPlane
  import opened TornReads
  import opened Scenarios

  const ENVIRONMENT := "staging"
  const NEW_RUN := Origin(Empty(ENVIRONMENT), false, None)
  const RUN := EvaluationRun(ENVIRONMENT, "profile", RunRunning, 1, 1, 0, "")
  const FACTS := Facts(0, Usage(false, 0, false, 0, false, 0), F.FidelityUnstated, F.LayerUnspecified)

  function BehaviorAt(i: nat): StableFeatures {
    StableFeatures(ActorService, OperationHTTP, Decimal(i), "", TargetUnspecified, ENVIRONMENT)
  }

  /** The i-th record, of the i-th behavior, with some duration text. */
  function RecordAt(i: nat, at: Instant, duration: string): Record {
    Record(Decimal(i), at, ENVIRONMENT, Decimal(i), BehaviorAt(i), Allow, LowRisk, ApprovalUnspecified, true, "", true, duration, StatusUnset,
           "", "", "")
  }

  function RequestOf(i: U64, record: Record): Request {
    Request("profile", i, Fixed(i, 64), FACTS, record)
  }

  function RequestAt(i: U64, at: Instant): Request {
    RequestOf(i, RecordAt(i, at, ""))
  }

  /** The longest duration a record may report. */
  function LongRequestAt(i: U64): Request {
    RequestOf(i, RecordAt(i, 1, Decimal(MAX_DURATION_NANOS)))
  }

  // ---- Every such record is accepted --------------------------------------------------------------------------

  lemma {:induction false} FixedDigits(n: nat, k: nat)
    ensures AllDigits(Fixed(n, k))
  {
    if k > 0 {
      FixedDigits(n / 10, k - 1);
    }
  }

  lemma DigestIsValid(n: nat)
    ensures ValidDigest(Fixed(n, 64))
  {
    FixedDigits(n, 64);
    FixedLength(n, 64);
  }

  lemma DecimalInjective(i: nat, j: nat)
    ensures Decimal(i) == Decimal(j) <==> i == j
  {
    DecimalDigits(i);
    DecimalDigits(j);
  }

  lemma {:induction false} DecimalShort(i: nat)
    requires i < 1000
    ensures 0 < |Decimal(i)| <= 3
  {
    if i >= 10 {
      if i >= 100 {
        assert |Decimal(i / 100)| == 1;
      }
      assert Decimal(i) == Decimal(i / 10) + [DigitChar(i % 10)];
    }
  }

  lemma IdentityIsValid(i: nat)
    requires i < 1000
    ensures ValidIdentity(Decimal(i), BehaviorAt(i))
  {
    DecimalShort(i);
    DecimalDigits(i);
  }

  /** The duration text is well formed and, if it measures something, fits the run's total. */
  predicate DurationFits(d: DurationSummary, text: string) {
    match ReadDuration(text)
    case Absent => true
    case Malformed => false
    case Nanos(n) => n <= MAX_DURATION_NANOS && d.sum + n <= MAX_UINT64
  }

  lemma DurationsTake(d: DurationSummary, c: SpanStatusCounts, n: U64, text: string)
    requires ValidRestored(d, c, n) && n < MAX_UINT64 && !ReadDuration(text).Malformed?
    ensures DurationFits(d, text) ==> ObserveOperational(d, c, ReadDuration(text), StatusUnset).Ok?
    ensures !DurationFits(d, text) ==> ObserveOperational(d, c, ReadDuration(text), StatusUnset) == Err(CounterOverflow)
    ensures ReadDuration(text).Nanos? && DurationFits(d, text) ==>
              ObserveOperational(d, c, ReadDuration(text), StatusUnset).value.0.sum == d.sum + ReadDuration(text).nanos
  {
    hide SharpTotal;
  }

  lemma AggregateTakes(a: EvaluationAggregate, i: nat, at: Instant, text: string)
    requires SoundAggregate(a) && a.environment == ENVIRONMENT && a.recordCount < MAX_UINT64 && at != 0 && i < 1000
    requires !ReadDuration(text).Malformed?
    ensures DurationFits(a.durations, text) ==> AddRecord(a, RecordAt(i, at, text)).Ok?
    ensures !DurationFits(a.durations, text) ==> AddRecord(a, RecordAt(i, at, text)) == Err(ErrAggregateOverflow)
    ensures ReadDuration(text).Nanos? && DurationFits(a.durations, text) ==>
              AddRecord(a, RecordAt(i, at, text)).value.durations.sum == a.durations.sum + ReadDuration(text).nanos
  {
    hide ObserveOperational, ReadDuration, ValidRestored, DurationFits, Decimal;
    DecimalShort(i);
    DurationsTake(a.durations, a.statuses, a.recordCount, text);
  }

  lemma FreshObserves(i: nat, at: Instant, text: string)
    requires DurationFits(NO_DURATIONS, text)
    ensures ValidFacts(FACTS)
    ensures var r := ObservedEntry(FreshEntry(RecordAt(i, at, text)), RecordAt(i, at, text), FACTS); r.Ok? && r.value.behavior == BehaviorAt(i)
  {
    hide Decimal, ReadDuration;
  }

  /** The collector has seen the behaviors 1 to n. */
  ghost predicate Filled(c: CollectorState, n: nat) {
    && c.complete && c.environment == ENVIRONMENT && c.observations == n && |c.entries| == n
    && (forall k: nat {:trigger Decimal(k)} :: Decimal(k) in c.entries <==> 1 <= k <= n)
    && (forall k: nat {:trigger BehaviorAt(k)} :: BehaviorAt(k) in c.byBehavior <==> 1 <= k <= n)
  }

  lemma NewIsFilled()
    ensures Filled(NewCollector(ENVIRONMENT), 0)
  {
  }

  lemma FactsAreValid()
    ensures ValidFacts(FACTS)
  {
  }

  lemma PassesPreflight(c: CollectorState, n: nat, at: Instant, text: string)
    requires Filled(c, n) && n < 999 && at != 0
    ensures Preflight(c, RecordAt(n + 1, at, text), FACTS).None?
  {
    hide Decimal, ValidIdentity, ValidFacts;
    IdentityIsValid(n + 1);
    DecimalShort(n + 1);
    FactsAreValid();
  }

  lemma FillsOneMore(c: CollectorState, n: nat, at: Instant, text: string)
    requires Filled(c, n) && n < MAX_BEHAVIOR_ENTRIES && at != 0 && DurationFits(NO_DURATIONS, text)
    ensures Observed(c, RecordAt(n + 1, at, text), FACTS).1.None? && Filled(Observed(c, RecordAt(n + 1, at, text), FACTS).0, n + 1)
  {
    hide Decimal, ObservedEntry, Preflight, ValidIdentity;
    PassesPreflight(c, n, at, text);
    FreshObserves(n + 1, at, text);
    forall k: nat ensures Decimal(k) == Decimal(n + 1) <==> k == n + 1 {
      DecimalInjective(k, n + 1);
    }
    assert Decimal(n + 1) !in c.entries && BehaviorAt(n + 1) !in c.byBehavior;
  }

  lemma FullSaturates(c: CollectorState, at: Instant, text: string)
    requires Filled(c, MAX_BEHAVIOR_ENTRIES) && at != 0
    ensures Observed(c, RecordAt(MAX_BEHAVIOR_ENTRIES + 1, at, text), FACTS) == (c.(complete := false), Some(ErrBehaviorCapacity))
  {
    hide Decimal, ObservedEntry, Preflight, ValidIdentity;
    PassesPreflight(c, MAX_BEHAVIOR_ENTRIES, at, text);
    assert Decimal(MAX_BEHAVIOR_ENTRIES + 1) !in c.entries && BehaviorAt(MAX_BEHAVIOR_ENTRIES + 1) !in c.byBehavior;
  }

  lemma ReducesOneMore(x: Reduced, n: nat, at: Instant, text: string)
    requires ValidReduced(x) && Filled(x.collector, n) && x.aggregate.environment == ENVIRONMENT && x.aggregate.recordCount == n
    requires n <= MAX_BEHAVIOR_ENTRIES && at != 0 && DurationFits(x.aggregate.durations, text)
    ensures Reduce(x, RecordAt(n + 1, at, text), FACTS).Ok?
    ensures var c := Reduce(x, RecordAt(n + 1, at, text), FACTS).value.collector;
            if n < MAX_BEHAVIOR_ENTRIES then Filled(c, n + 1) else !c.complete
  {
    hide AddRecord, Observed, Filled, SoundAggregate, ValidCollector, IdentitiesValid, Decimal, DurationFits, ReadDuration;
    FitsAlone(x.aggregate.durations, text);
    AggregateTakes(x.aggregate, n + 1, at, text);
    if n < MAX_BEHAVIOR_ENTRIES {
      FillsOneMore(x.collector, n, at, text);
    } else {
      FullSaturates(x.collector, at, text);
    }
  }

  lemma FitsAlone(d: DurationSummary, text: string)
    requires DurationFits(d, text)
    ensures DurationFits(NO_DURATIONS, text) && !ReadDuration(text).Malformed?
  {
    hide ReadDuration;
  }

  lemma NoDurationFits(d: DurationSummary)
    ensures DurationFits(d, "")
  {
  }

  // ---- The run so far -----------------------------------------------------------------------------------------

  function LogOf(n: nat): (log: seq<Request>)
    requires n <= MAX_BEHAVIOR_ENTRIES
    ensures |log| == n && (n > 0 ==> log[0] == RequestAt(1, 1) && log[n - 1] == RequestAt(n, 1))
  {
    if n == 0 then [] else LogOf(n - 1) + [RequestAt(n, 1)]
  }

  lemma NewRunIsValid()
    ensures ValidOrigin(NEW_RUN) && NEW_RUN.start.aggregate.recordCount == 0 && NEW_RUN.start.aggregate.environment == ENVIRONMENT
  {
    hide ValidReduced;
  }

  lemma {:induction false} LogOfFills(n: nat)
    requires n <= MAX_BEHAVIOR_ENTRIES
    ensures FoldLog(NEW_RUN.start, LogOf(n)).Ok? && Filled(FoldLog(NEW_RUN.start, LogOf(n)).value.collector, n)
  {
    hide Reduce, Filled, ValidReduced, Decimal, ValidOrigin;
    if n == 0 {
      NewIsFilled();
    } else {
      LogOfFills(n - 1);
      NewRunIsValid();
      FoldFacts(NEW_RUN, LogOf(n - 1));
      FoldLogSnoc(NEW_RUN.start, LogOf(n - 1), RequestAt(n, 1));
      NoDurationFits(FoldLog(NEW_RUN.start, LogOf(n - 1)).value.aggregate.durations);
      ReducesOneMore(FoldLog(NEW_RUN.start, LogOf(n - 1)).value, n - 1, 1, "");
    }
  }

  /** The run is running, has accepted the first n records, and only the first n clients have called. */
  ghost predicate RunAt(s: System, n: nat) {
    && n <= MAX_BEHAVIOR_ENTRIES && Attainable(NEW_RUN, s) && s.log == LogOf(n) && s.d.run == RUN
    && (forall id | id in s.clients :: id < n)
  }

  lemma NextIsAcceptable(s: System, n: nat, at: Instant)
    requires RunAt(s, n) && at != 0
    ensures Acceptable(NEW_RUN, s, RequestAt(n + 1, at)) && CursorOf(NEW_RUN, s.log) == n + 1
    ensures n == MAX_BEHAVIOR_ENTRIES ==> Saturates(NEW_RUN, s.log, RequestAt(n + 1, at))
    ensures Timely(NEW_RUN, s.log) && (Timely(NEW_RUN, s.log + [RequestAt(n + 1, at)]) <==> n > 0 || at > 0)
  {
    hide Reduce, Filled, ValidReduced, Decimal, Attainable, ValidDigest, FoldLog, ValidOrigin, LogOf;
    LogOfFills(n);
    NewRunIsValid();
    FoldFacts(NEW_RUN, s.log);
    NoDurationFits(FoldLog(NEW_RUN.start, s.log).value.aggregate.durations);
    ReducesOneMore(FoldLog(NEW_RUN.start, s.log).value, n, at, "");
    DigestIsValid(n + 1);
    DecimalShort(n + 1);
    FactsAreValid();
    assert ReadDuration("") == Absent;
  }

  lemma Begins() returns (s: System)
    ensures RunAt(s, 0)
  {
    s := System(Durable(RUN, None, None, NOTHING_RETAINED), map[], []);
    NewRunIsValid();
    InitHolds(s);
    StartAttains(NEW_RUN, s);
  }

  lemma InitHolds(s: System)
    requires s == System(Durable(RUN, None, None, NOTHING_RETAINED), map[], [])
    ensures Init(NEW_RUN, s)
  {
    hide ValidReduced;
  }

  lemma {:induction false} Proceeds(n: nat) returns (s: System)
    requires n <= MAX_BEHAVIOR_ENTRIES
    ensures RunAt(s, n)
  {
    hide Attainable, Acceptable, IngestAlone, Decimal, Called;
    if n == 0 {
      s := Begins();
    } else {
      var before := Proceeds(n - 1);
      NextIsAcceptable(before, n - 1, 1);
      CallAttains(NEW_RUN, before, n - 1, RequestAt(n, 1));
      s := Called(before, n - 1, RequestAt(n, 1));
    }
  }

  // ---- What happens -------------------------------------------------------------------------------------------

  lemma NoRowYet(s: System)
    requires RunAt(s, 0)
    ensures s.d.cursor.None?
  {
    hide Attainable, StoreInvariant;
    ReachedInvariant(NEW_RUN, s);
    CursorSays(NEW_RUN, s);
  }

  lemma RowStands(s: System, n: nat)
    requires RunAt(s, n) && n > 0
    ensures s.d.cursor.Some? && s.d.cursor.value.digest == Fixed(n, 64)
  {
    hide Attainable, StoreInvariant;
    ReachedInvariant(NEW_RUN, s);
    CursorSays(NEW_RUN, s);
  }

  /** Of two clients with the first record of a new run, the second can be refused as carrying other content, or told that the
      store is corrupt. */
  lemma FirstRecordRefusedTwice()
    ensures exists s :: Attainable(NEW_RUN, s) && OneAppliedOneRefused(s, RequestAt(1, 1), ErrSequence)
    ensures exists s :: Attainable(NEW_RUN, s) && OneAppliedOneRefused(s, RequestAt(1, 1), ErrStoreCorrupt)
  {
    hide Attainable, Acceptable, OneAppliedOneRefused, Decimal;
    var s := Proceeds(0);
    NoRowYet(s);
    NextIsAcceptable(s, 0, 1);
    RetryFindsOtherContent(NEW_RUN, s, 0, 1, RequestAt(1, 1));
    RetryFindsHalfAPair(NEW_RUN, s, 0, 1, RequestAt(1, 1));
  }

  /** Nor is the first record special: of two clients with any later record of such a run, the second can be told that the
      store is corrupt. */
  lemma LaterRecordFindsCorrupt(n: nat)
    requires 1 <= n <= MAX_BEHAVIOR_ENTRIES
    ensures exists s :: Attainable(NEW_RUN, s) && OneAppliedOneRefused(s, RequestAt(n + 1, 1), ErrStoreCorrupt)
  {
    hide Attainable, Acceptable, OneAppliedOneRefused, Decimal;
    var s := Proceeds(n);
    RowStands(s, n);
    NextIsAcceptable(s, n, 1);
    RetryFindsStoreCorrupt(NEW_RUN, s, n, n + 1, RequestAt(n + 1, 1));
  }

  lemma NextAcceptableAfter(s: System, n: nat, q: Request, r: Request)
    requires RunAt(s, n) && n < MAX_BEHAVIOR_ENTRIES && q == RequestAt(n + 1, 1) && r == RequestAt(n + 2, 1)
    ensures Acceptable(NEW_RUN, s.(log := s.log + [q]), r)
  {
    hide Attainable, Acceptable, Decimal;
    var t := Proceeds(n + 1);
    NextIsAcceptable(t, n + 1, 1);
    AcceptableStill(NEW_RUN, t, s.(log := s.log + [q]), r);
  }

  /** A twin admitted in time replays when it loses the race to commit, the first record included, for which it found no cursor
      row; and any twin can find the cursor two past its sequence instead. */
  lemma TwinsReplayOrFallBehind(n: nat)
    requires n < MAX_BEHAVIOR_ENTRIES
    ensures exists s :: Attainable(NEW_RUN, s) && OneAppliedOneReplayed(s, RequestAt(n + 1, 1))
    ensures exists s :: Attainable(NEW_RUN, s) && OneAppliedOneRefused(s, RequestAt(n + 1, 1), ErrSequence)
  {
    hide Attainable, Acceptable, OneAppliedOneRefused, OneAppliedOneReplayed, Decimal, Timely;
    var s := Proceeds(n);
    NextIsAcceptable(s, n, 1);
    RetryReplaysAtCommit(NEW_RUN, s, n, n + 1, RequestAt(n + 1, 1));
    NextAcceptableAfter(s, n, RequestAt(n + 1, 1), RequestAt(n + 2, 1));
    RetryFallsTwoBehind(NEW_RUN, s, n, n + 1, n + 2, RequestAt(n + 1, 1), RequestAt(n + 2, 1));
  }

  // ---- A record that does not fold onto itself ----------------------------------------------------------------

  lemma LongestDuration()
    ensures ReadDuration(Decimal(MAX_DURATION_NANOS)) == Nanos(MAX_DURATION_NANOS)
  {
    hide Decimal;
    ParsePrints(MAX_DURATION_NANOS);
    DecimalDigits(MAX_DURATION_NANOS);
  }

  /** The first n of two records with the longest duration, which together just fit. */
  function LongLog(n: nat): (log: seq<Request>)
    requires n <= 2
    ensures |log| == n && (n > 0 ==> log[0] == LongRequestAt(1))
  {
    if n == 0 then [] else LongLog(n - 1) + [LongRequestAt(n)]
  }

  lemma LongFits(d: DurationSummary, n: nat)
    requires d.sum == n * MAX_DURATION_NANOS
    ensures DurationFits(d, Decimal(MAX_DURATION_NANOS)) <==> n < 2
  {
    hide ReadDuration;
    LongestDuration();
  }

  ghost predicate LongSoFar(x: Reduced, n: nat) {
    && ValidReduced(x) && Filled(x.collector, n) && x.aggregate.environment == ENVIRONMENT && x.aggregate.recordCount == n
    && x.aggregate.durations.sum == n * MAX_DURATION_NANOS
  }

  lemma LongOneMore(x: Reduced, n: nat)
    requires LongSoFar(x, n) && n <= 2
    ensures n < 2 ==> var r := Reduce(x, RecordAt(n + 1, 1, Decimal(MAX_DURATION_NANOS)), FACTS); r.Ok? && LongSoFar(r.value, n + 1)
    ensures n == 2 ==> Reduce(x, RecordAt(n, 1, Decimal(MAX_DURATION_NANOS)), FACTS) == Err(ErrAggregateOverflow)
  {
    hide Filled, SoundAggregate, ValidCollector, IdentitiesValid, Decimal, DurationFits, ReadDuration, AddRecord, Observed;
    var text := Decimal(MAX_DURATION_NANOS);
    LongFits(x.aggregate.durations, n);
    LongestDuration();
    if n < 2 {
      ReducesOneMore(x, n, 1, text);
      AggregateTakes(x.aggregate, n + 1, 1, text);
      ReduceKeepsValid(x, RecordAt(n + 1, 1, text), FACTS);
    } else {
      AggregateTakes(x.aggregate, n, 1, text);
    }
  }

  lemma LongFolds(n: nat)
    requires n <= 2
    ensures FoldLog(NEW_RUN.start, LongLog(n)).Ok? && LongSoFar(FoldLog(NEW_RUN.start, LongLog(n)).value, n)
  {
    hide Reduce, LongSoFar, Decimal, FoldLog;
    if n == 0 {
      NothingLongYet();
    } else {
      LongFolds(n - 1);
      FoldLogSnoc(NEW_RUN.start, LongLog(n - 1), LongRequestAt(n));
      LongOneMore(FoldLog(NEW_RUN.start, LongLog(n - 1)).value, n - 1);
    }
  }

  lemma NothingLongYet()
    ensures FoldLog(NEW_RUN.start, LongLog(0)).Ok? && LongSoFar(FoldLog(NEW_RUN.start, LongLog(0)).value, 0)
  {
    hide ValidReduced, Filled;
    EmptyIsValidReduced(ENVIRONMENT);
    NewIsFilled();
  }

  ghost predicate LongAt(s: System, n: nat) {
    && n <= 2 && Attainable(NEW_RUN, s) && s.log == LongLog(n) && s.d.run == RUN
    && (forall id | id in s.clients :: id < n)
  }

  lemma NextLongIsAcceptable(s: System, n: nat)
    requires LongAt(s, n) && n < 2
    ensures Acceptable(NEW_RUN, s, LongRequestAt(n + 1)) && CursorOf(NEW_RUN, s.log) == n + 1
    ensures Timely(NEW_RUN, s.log + [LongRequestAt(n + 1)])
  {
    hide Reduce, LongSoFar, Decimal, Attainable, ValidDigest, FoldLog, LongLog, ReadDuration;
    LongFolds(n);
    LongOneMore(FoldLog(NEW_RUN.start, s.log).value, n);
    LongestDuration();
    DigestIsValid(n + 1);
    DecimalShort(n + 1);
    FactsAreValid();
  }

  /** The second of two records with the longest duration is accepted; its twin, admitted before it was, folds it a third time
      and is refused as overflowing. */
  lemma TwinOverflows()
    ensures exists s :: Attainable(NEW_RUN, s) && OneAppliedOneRefused(s, LongRequestAt(2), ErrAggregateOverflow)
  {
    hide Attainable, Acceptable, OneAppliedOneRefused, Decimal, Timely, FoldLog, Reduce, IngestAlone, Called, LongSoFar, Filled;
    var s := Proceeds(0);
    NextLongIsAcceptable(s, 0);
    CallAttains(NEW_RUN, s, 0, LongRequestAt(1));
    var t := Called(s, 0, LongRequestAt(1));
    NextLongIsAcceptable(t, 1);
    LongFolds(2);
    var x := FoldLog(NEW_RUN.start, LongLog(2)).value;
    LongOneMore(x, 2);
    RetryFailsToFold(NEW_RUN, t, 1, 2, LongRequestAt(2), x, ErrAggregateOverflow);
  }

  // ---- A replay that understates ------------------------------------------------------------------------------

  /** A retry of the 512th record is told that behavioral evidence was incomplete there, while the 513th saturates it. */
  lemma ReplayUnderstates()
    ensures exists s, id :: Attainable(NEW_RUN, s) && UnderstatedTo(NEW_RUN, s, id, RequestAt(MAX_BEHAVIOR_ENTRIES, 1))
  {
    hide Attainable, Acceptable, Saturates, UnderstatedTo, Decimal, CompleteAt;
    var n := MAX_BEHAVIOR_ENTRIES;
    var s := Proceeds(n);
    RowStands(s, n);
    NextIsAcceptable(s, n, 1);
    LogIsComplete(n);
    var t := SaturatedReplayUnderstates(NEW_RUN, s, n, n + 1, RequestAt(n, 1), RequestAt(n + 1, 1));
    assert UnderstatedTo(NEW_RUN, t, n + 1, RequestAt(n, 1));
  }

  lemma LogIsComplete(n: nat)
    requires n <= MAX_BEHAVIOR_ENTRIES
    ensures CompleteAt(NEW_RUN, LogOf(n), n)
  {
    hide LogOf, FoldLog;
    LogOfFills(n);
    assert LogOf(n)[..n] == LogOf(n);
  }

  /** A running run's only record, stamped before the zero time, was accepted and answered so; what it left reads back as
      corrupt, and nothing will be accepted again. */
  ghost predicate Unreadable(s: System, q: Request) {
    && s.log == [q] && s.d.run.status == RunRunning && !Timely(NEW_RUN, s.log) && StoredOutcome(s.d) == Err(ErrStoreCorrupt)
    && (exists id :: id in s.clients && s.clients[id].Answered? && s.clients[id].q == q && IsApplied(s.clients[id].reply))
  }

  lemma UntimelyHappens(at: Instant)
    requires at < 0
    ensures exists s :: Attainable(NEW_RUN, s) && Unreadable(s, RequestAt(1, at))
  {
    hide Attainable, Acceptable, Decimal, IngestAlone, Called, StoredOutcome, StoreInvariant;
    var s := Proceeds(0);
    var q := RequestAt(1, at);
    NextIsAcceptable(s, 0, at);
    CallAttains(NEW_RUN, s, 0, q);
    var t := Called(s, 0, q);
    ReachedInvariant(NEW_RUN, t);
    StoredOutcomeHere(NEW_RUN, t);
    assert 0 in t.clients && IsApplied(t.clients[0].reply);
    assert Unreadable(t, q);
  }
}
