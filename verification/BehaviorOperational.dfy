/** platform/behavior_operational.go: one behavior's latency histogram, statuses and tokens, how a record is folded
    in, how two summaries add, and the restore-time validator. */
module BehaviorOperational {
  import opened Bounded
  import opened Ordering
  import opened Operational
  import opened Fidelity

  const BUCKETS: nat := 11

  /** event.MaxTokenCount: 2^32. */
  const MAX_TOKEN_COUNT: int := 0x1_0000_0000

  type DurationBuckets = b: seq<U64> | |b| == BUCKETS witness [0, 0, 0, 0, 0, 0, 0, 0, 0, 0, 0]

  datatype HttpStatusCounts = HttpStatusCounts(
    informational: U64, success: U64, redirection: U64, clientError: U64, serverError: U64, unavailable: U64)

  datatype TokenCounts = TokenCounts(input: U64, output: U64, unsplit: U64, observed: U64, unobserved: U64)

  datatype OperationalSummary = OperationalSummary(
    buckets: DurationBuckets, durations: DurationSummary, spanStatus: SpanStatusCounts,
    httpStatus: HttpStatusCounts, http429: U64, tokens: TokenCounts)

  datatype Usage = Usage(hasInput: bool, input: U64, hasOutput: bool, output: U64, hasUnsplit: bool, unsplit: U64)

  datatype Facts = Facts(httpStatusCode: U64, usage: Usage, fidelity: FidelityStated, layer: Layer)

  const NO_BUCKETS: DurationBuckets := [0, 0, 0, 0, 0, 0, 0, 0, 0, 0, 0]
  const EMPTY := OperationalSummary(NO_BUCKETS, NO_DURATIONS, NO_STATUSES, HttpStatusCounts(0, 0, 0, 0, 0, 0), 0, TokenCounts(0, 0, 0, 0, 0))

  /** What a migration writes for observations that stated nothing. */
  function UnavailableOperational(observations: U64): OperationalSummary {
    EMPTY.(durations := NO_DURATIONS.(unobserved := observations),
           spanStatus := NO_STATUSES.(unavailable := observations),
           httpStatus := EMPTY.httpStatus.(unavailable := observations),
           tokens := EMPTY.tokens.(unobserved := observations))
  }

  predicate ReportsTokens(u: Usage) {
    u.hasInput || u.hasOutput || u.hasUnsplit
  }

  /** OperationalFacts.Validate. */
  predicate ValidFacts(f: Facts) {
    && ValidPair(f.fidelity, f.layer)
    && (f.httpStatusCode != 0 ==> 100 <= f.httpStatusCode <= 599)
    && !(f.usage.hasUnsplit && (f.usage.hasInput || f.usage.hasOutput))
    && (f.usage.hasInput ==> f.usage.input <= MAX_TOKEN_COUNT)
    && (f.usage.hasOutput ==> f.usage.output <= MAX_TOKEN_COUNT)
    && (f.usage.hasUnsplit ==> f.usage.unsplit <= MAX_TOKEN_COUNT)
  }

  // ---- Buckets ------------------------------------------------------------------------------------------------

  function UpperMillis(i: nat): U64 {
    if i == 0 then 1 else if i == 1 then 5 else if i == 2 then 10 else if i == 3 then 50 else if i == 4 then 100
    else if i == 5 then 250 else if i == 6 then 500 else if i == 7 then 1000 else if i == 8 then 2500 else 10000
  }

  function BucketFrom(nanos: U64, i: nat): (k: nat)
    requires i < BUCKETS
    ensures i <= k < BUCKETS
    decreases BUCKETS - i
  {
    if i == BUCKETS - 1 then i
    else if nanos <= UpperMillis(i) * 1_000_000 then i
    else BucketFrom(nanos, i + 1)
  }

  /** The first bucket whose upper-inclusive boundary the duration does not exceed. */
  function DurationBucket(nanos: U64): (k: nat)
    ensures k < BUCKETS
  {
    BucketFrom(nanos, 0)
  }

  /** The smallest and largest duration a bucket counts. */
  function BucketLow(i: nat): U64 {
    if i == 0 then 0 else UpperMillis(i - 1) * 1_000_000 + 1
  }

  function BucketHigh(i: nat): U64 {
    if i < BUCKETS - 1 then UpperMillis(i) * 1_000_000 else MAX_DURATION_NANOS
  }

  /** The upper boundaries in nanoseconds, each inclusive; the last bucket is open up to the longest duration. */
  lemma BucketTable(i: nat)
    requires i < BUCKETS
    ensures BucketHigh(i) == [1_000_000, 5_000_000, 10_000_000, 50_000_000, 100_000_000, 250_000_000, 500_000_000, 1_000_000_000,
                              2_500_000_000, 10_000_000_000, 0x7FFF_FFFF_FFFF_FFFF][i]
    ensures BucketLow(i) == if i == 0 then 0 else BucketHigh(i - 1) + 1
  {
  }

  lemma {:induction false} BucketFromHolds(nanos: U64, i: nat)
    requires i < BUCKETS && BucketLow(i) <= nanos <= MAX_DURATION_NANOS
    ensures i <= BucketFrom(nanos, i) < BUCKETS
    ensures BucketLow(BucketFrom(nanos, i)) <= nanos <= BucketHigh(BucketFrom(nanos, i))
    decreases BUCKETS - i
  {
    if i < BUCKETS - 1 && nanos > UpperMillis(i) * 1_000_000 {
      BucketFromHolds(nanos, i + 1);
    }
  }

  lemma BucketHolds(nanos: U64)
    requires nanos <= MAX_DURATION_NANOS
    ensures DurationBucket(nanos) < BUCKETS
    ensures BucketLow(DurationBucket(nanos)) <= nanos <= BucketHigh(DurationBucket(nanos))
  {
    BucketFromHolds(nanos, 0);
  }

  lemma {:induction false} EdgesIncrease(i: nat, j: nat)
    requires i < j < BUCKETS
    ensures BucketHigh(i) < BucketLow(j)
  {
    if j > i + 1 {
      EdgesIncrease(i, j - 1);
    }
  }

  /** Each duration lies in exactly one bucket, and a longer duration never in an earlier one. */
  lemma BucketUnique(nanos: U64, i: nat)
    requires nanos <= MAX_DURATION_NANOS && i < BUCKETS
    ensures DurationBucket(nanos) == i <==> BucketLow(i) <= nanos <= BucketHigh(i)
  {
    BucketHolds(nanos);
    var k := DurationBucket(nanos);
    if i < k { EdgesIncrease(i, k); }
    if k < i { EdgesIncrease(k, i); }
  }

  lemma BucketMonotone(a: U64, b: U64)
    requires a <= b <= MAX_DURATION_NANOS
    ensures DurationBucket(a) <= DurationBucket(b)
  {
    BucketHolds(a);
    BucketHolds(b);
    if DurationBucket(b) < DurationBucket(a) {
      EdgesIncrease(DurationBucket(b), DurationBucket(a));
    }
  }

  // ---- One observation ----------------------------------------------------------------------------------------

  function CountBucket(b: DurationBuckets, duration: DurationField): Option<DurationBuckets> {
    if !duration.Nanos? then Some(b)
    else
      var i := DurationBucket(duration.nanos);
      if b[i] == MAX_UINT64 then None
      else Some(b[i := b[i] + 1])
  }

  function CountHttp(h: HttpStatusCounts, code: U64): Option<HttpStatusCounts> {
    if code == 0 then
      if h.unavailable == MAX_UINT64 then None else Some(h.(unavailable := h.unavailable + 1))
    else if code < 200 then
      if h.informational == MAX_UINT64 then None else Some(h.(informational := h.informational + 1))
    else if code < 300 then
      if h.success == MAX_UINT64 then None else Some(h.(success := h.success + 1))
    else if code < 400 then
      if h.redirection == MAX_UINT64 then None else Some(h.(redirection := h.redirection + 1))
    else if code < 500 then
      if h.clientError == MAX_UINT64 then None else Some(h.(clientError := h.clientError + 1))
    else
      if h.serverError == MAX_UINT64 then None else Some(h.(serverError := h.serverError + 1))
  }

  function Count429(n: U64, code: U64): Option<U64> {
    if code == 429 then AddCount(n, 1) else Some(n)
  }

  function CountTokens(t: TokenCounts, u: Usage): Option<TokenCounts> {
    if !ReportsTokens(u) then
      if t.unobserved == MAX_UINT64 then None else Some(t.(unobserved := t.unobserved + 1))
    else if t.input + u.input > MAX_UINT64 || t.output + u.output > MAX_UINT64
            || t.unsplit + u.unsplit > MAX_UINT64 || t.observed == MAX_UINT64 then None
    else Some(TokenCounts(t.input + u.input, t.output + u.output, t.unsplit + u.unsplit, t.observed + 1, t.unobserved))
  }

  /** Folds one record and its facts in, or says why it cannot. */
  function Observe(s: OperationalSummary, duration: DurationField, status: SpanStatus, facts: Facts): Result<OperationalSummary, FoldError> {
    match ObserveOperational(s.durations, s.spanStatus, duration, status)
    case Err(e) => Err(e)
    case Ok(pair) =>
      match (CountBucket(s.buckets, duration), CountHttp(s.httpStatus, facts.httpStatusCode),
             Count429(s.http429, facts.httpStatusCode), CountTokens(s.tokens, facts.usage))
      case (Some(b), Some(h), Some(n), Some(t)) => Ok(OperationalSummary(b, pair.0, pair.1, h, n, t))
      case _ => Err(CounterOverflow)
  }

  // ---- Adding -------------------------------------------------------------------------------------------------

  predicate BucketsFit(a: DurationBuckets, b: DurationBuckets) {
    forall i | 0 <= i < BUCKETS :: a[i] + b[i] <= MAX_UINT64
  }

  function AddBuckets(a: DurationBuckets, b: DurationBuckets): Option<DurationBuckets> {
    if BucketsFit(a, b) then Some(seq(BUCKETS, i requires 0 <= i < BUCKETS && BucketsFit(a, b) => (a[i] + b[i]) as U64)) else None
  }

  function AddHttp(a: HttpStatusCounts, b: HttpStatusCounts): Option<HttpStatusCounts> {
    if || a.informational + b.informational > MAX_UINT64 || a.success + b.success > MAX_UINT64
       || a.redirection + b.redirection > MAX_UINT64 || a.clientError + b.clientError > MAX_UINT64
       || a.serverError + b.serverError > MAX_UINT64 || a.unavailable + b.unavailable > MAX_UINT64 then None
    else Some(HttpStatusCounts(a.informational + b.informational, a.success + b.success, a.redirection + b.redirection,
                               a.clientError + b.clientError, a.serverError + b.serverError, a.unavailable + b.unavailable))
  }

  function AddTokens(a: TokenCounts, b: TokenCounts): Option<TokenCounts> {
    if || a.input + b.input > MAX_UINT64 || a.output + b.output > MAX_UINT64 || a.unsplit + b.unsplit > MAX_UINT64
       || a.observed + b.observed > MAX_UINT64 || a.unobserved + b.unobserved > MAX_UINT64 then None
    else Some(TokenCounts(a.input + b.input, a.output + b.output, a.unsplit + b.unsplit,
                          a.observed + b.observed, a.unobserved + b.unobserved))
  }

  /** The counter-wise sum with the extrema of both sides; None where any counter would wrap. */
  function Add(s: OperationalSummary, o: OperationalSummary): Option<OperationalSummary> {
    match (AddBuckets(s.buckets, o.buckets), AddDurations(s.durations, o.durations), AddStatuses(s.spanStatus, o.spanStatus),
           AddHttp(s.httpStatus, o.httpStatus), AddCount(s.http429, o.http429), AddTokens(s.tokens, o.tokens))
    case (Some(b), Some(d), Some(c), Some(h), Some(n), Some(t)) => Some(OperationalSummary(b, d, c, h, n, t))
    case _ => None
  }

  /** Addition over outcomes: an overflow on either side stays an overflow. */
  function Plus(a: Option<OperationalSummary>, b: Option<OperationalSummary>): Option<OperationalSummary> {
    if a.Some? && b.Some? then Add(a.value, b.value) else None
  }

  /** A side that measured nothing holds no statistics. */
  predicate Normal(s: OperationalSummary) {
    NormalDurations(s.durations)
  }

  predicate NormalDurations(d: DurationSummary) {
    d.count == 0 ==> d.sum == 0 && d.min == 0 && d.max == 0
  }

  lemma AddBucketsLaws(a: DurationBuckets, b: DurationBuckets, c: DurationBuckets)
    ensures AddBuckets(a, b) == AddBuckets(b, a)
    ensures AddBuckets(NO_BUCKETS, a) == Some(a)
    ensures AddBuckets(a, b).Some? && AddBuckets(b, c).Some? ==>
              AddBuckets(AddBuckets(a, b).value, c) == AddBuckets(a, AddBuckets(b, c).value)
    ensures AddBuckets(a, b).None? && AddBuckets(b, c).Some? ==> AddBuckets(a, AddBuckets(b, c).value).None?
    ensures AddBuckets(a, b).Some? && AddBuckets(b, c).None? ==> AddBuckets(AddBuckets(a, b).value, c).None?
  {
    BucketsSymmetric(a, b);
    assert AddBuckets(NO_BUCKETS, a).value == a;
    if AddBuckets(a, b).Some? && AddBuckets(b, c).Some? {
      BucketsAssociate(a, b, c);
    } else if AddBuckets(a, b).None? && AddBuckets(b, c).Some? {
      var i :| 0 <= i < BUCKETS && a[i] + b[i] > MAX_UINT64;
      assert AddBuckets(b, c).value[i] == b[i] + c[i];
    } else if AddBuckets(a, b).Some? && AddBuckets(b, c).None? {
      var i :| 0 <= i < BUCKETS && b[i] + c[i] > MAX_UINT64;
      assert AddBuckets(a, b).value[i] == a[i] + b[i];
    }
  }

  lemma BucketsSymmetric(a: DurationBuckets, b: DurationBuckets)
    ensures AddBuckets(a, b) == AddBuckets(b, a)
  {
    assert BucketsFit(a, b) <==> BucketsFit(b, a);
    if BucketsFit(a, b) {
      assert AddBuckets(a, b).value == AddBuckets(b, a).value;
    }
  }

  lemma BucketsAssociate(a: DurationBuckets, b: DurationBuckets, c: DurationBuckets)
    requires BucketsFit(a, b) && BucketsFit(b, c)
    ensures AddBuckets(AddBuckets(a, b).value, c) == AddBuckets(a, AddBuckets(b, c).value)
  {
    var ab, bc := AddBuckets(a, b).value, AddBuckets(b, c).value;
    forall i | 0 <= i < BUCKETS ensures ab[i] as int + c[i] as int == a[i] as int + bc[i] as int {}
    assert BucketsFit(ab, c) <==> BucketsFit(a, bc);
    if BucketsFit(ab, c) {
      assert AddBuckets(ab, c).value == AddBuckets(a, bc).value;
    }
  }

  lemma AddDurationsAssociates(a: DurationSummary, b: DurationSummary, c: DurationSummary)
    ensures AddDurations(a, b).Some? && AddDurations(b, c).Some? ==>
              AddDurations(AddDurations(a, b).value, c) == AddDurations(a, AddDurations(b, c).value)
    ensures AddDurations(a, b).None? && AddDurations(b, c).Some? ==> AddDurations(a, AddDurations(b, c).value).None?
    ensures AddDurations(a, b).Some? && AddDurations(b, c).None? ==> AddDurations(AddDurations(a, b).value, c).None?
  {
  }

  /** Reachable summaries under Add are a commutative monoid, overflow being an absorbing outcome. */
  lemma AddCommutes(a: OperationalSummary, b: OperationalSummary)
    requires Normal(a) && Normal(b)
    ensures Add(a, b) == Add(b, a)
  {
    BucketsSymmetric(a.buckets, b.buckets);
  }

  lemma AddIdentity(a: OperationalSummary)
    requires Normal(a)
    ensures Add(EMPTY, a) == Some(a) && Add(a, EMPTY) == Some(a)
  {
    AddBucketsLaws(a.buckets, a.buckets, a.buckets);
    AddCommutes(EMPTY, a);
  }

  lemma AddAssociates(a: OperationalSummary, b: OperationalSummary, c: OperationalSummary)
    ensures Plus(Add(a, b), Some(c)) == Plus(Some(a), Add(b, c))
  {
    AddBucketsLaws(a.buckets, b.buckets, c.buckets);
    AddDurationsAssociates(a.durations, b.durations, c.durations);
  }

  lemma AddKeepsNormal(a: OperationalSummary, b: OperationalSummary)
    requires Normal(a) && Normal(b)
    ensures Add(a, b).Some? ==> Normal(Add(a, b).value)
  {
  }

  // ---- Streams ------------------------------------------------------------------------------------------------

  datatype FactSample = FactSample(duration: DurationField, status: SpanStatus, facts: Facts)

  predicate PlausibleFacts(x: FactSample) {
    Plausible(Sample(x.duration, x.status)) && ValidFacts(x.facts)
  }

  ghost predicate PlausibleFactStream(stream: seq<FactSample>) {
    forall i | 0 <= i < |stream| :: PlausibleFacts(stream[i])
  }

  function Outcome(r: Result<OperationalSummary, FoldError>): Option<OperationalSummary> {
    if r.Ok? then Some(r.value) else None
  }

  function FoldSummary(stream: seq<FactSample>): Option<OperationalSummary> {
    if stream == [] then Some(EMPTY)
    else
      var last := stream[|stream| - 1];
      match FoldSummary(stream[..|stream| - 1])
      case None => None
      case Some(s) => Outcome(Observe(s, last.duration, last.status, last.facts))
  }

  function Single(x: FactSample): Option<OperationalSummary> {
    Outcome(Observe(EMPTY, x.duration, x.status, x.facts))
  }

  lemma CountBucketIsAdd(b: DurationBuckets, duration: DurationField)
    ensures CountBucket(NO_BUCKETS, duration).Some?
    ensures CountBucket(b, duration) == AddBuckets(b, CountBucket(NO_BUCKETS, duration).value)
  {
    var one := CountBucket(NO_BUCKETS, duration).value;
    if duration.Nanos? {
      var k := DurationBucket(duration.nanos);
      assert forall i | 0 <= i < BUCKETS :: one[i] == if i == k then 1 else 0;
      assert BucketsFit(b, one) <==> b[k] < MAX_UINT64;
      if BucketsFit(b, one) {
        assert AddBuckets(b, one).value == b[k := b[k] + 1];
      }
    } else {
      assert AddBuckets(b, NO_BUCKETS).value == b;
    }
  }

  lemma CountStatusIsAdd(c: SpanStatusCounts, status: SpanStatus)
    requires !status.StatusUnrecognized?
    ensures CountStatus(NO_STATUSES, status).Ok?
    ensures (if CountStatus(c, status).Ok? then Some(CountStatus(c, status).value) else None)
            == AddStatuses(c, CountStatus(NO_STATUSES, status).value)
  {
  }

  lemma FoldDurationIsAdd(d: DurationSummary, duration: DurationField)
    requires !duration.Malformed? && NormalDurations(d)
    ensures FoldDurationField(NO_DURATIONS, duration).Ok?
    ensures (if FoldDurationField(d, duration).Ok? then Some(FoldDurationField(d, duration).value) else None)
            == AddDurations(d, FoldDurationField(NO_DURATIONS, duration).value)
  {
  }

  lemma CountTokensIsAdd(t: TokenCounts, u: Usage)
    ensures CountTokens(EMPTY.tokens, u).Some?
    ensures CountTokens(t, u) == AddTokens(t, CountTokens(EMPTY.tokens, u).value)
  {
  }

  lemma CountHttpIsAdd(h: HttpStatusCounts, code: U64)
    ensures CountHttp(EMPTY.httpStatus, code).Some?
    ensures CountHttp(h, code) == AddHttp(h, CountHttp(EMPTY.httpStatus, code).value)
  {
  }

  /** Folding one record in is adding the summary of that record alone. */
  lemma ObserveIsAdd(s: OperationalSummary, x: FactSample)
    requires Normal(s) && PlausibleFacts(x)
    ensures Single(x).Some? && Normal(Single(x).value)
    ensures Outcome(Observe(s, x.duration, x.status, x.facts)) == Add(s, Single(x).value)
  {
    CountBucketIsAdd(s.buckets, x.duration);
    CountStatusIsAdd(s.spanStatus, x.status);
    FoldDurationIsAdd(s.durations, x.duration);
    CountHttpIsAdd(s.httpStatus, x.facts.httpStatusCode);
    CountTokensIsAdd(s.tokens, x.facts.usage);
  }

  lemma {:induction false} FoldIsNormal(stream: seq<FactSample>)
    requires PlausibleFactStream(stream)
    ensures FoldSummary(stream).Some? ==> Normal(FoldSummary(stream).value)
  {
    if stream != [] {
      var init, last := stream[..|stream| - 1], stream[|stream| - 1];
      FoldIsNormal(init);
      if FoldSummary(init).Some? {
        ObserveIsAdd(FoldSummary(init).value, last);
        AddKeepsNormal(FoldSummary(init).value, Single(last).value);
      }
    }
  }

  lemma FoldLast(init: seq<FactSample>, last: FactSample)
    requires PlausibleFactStream(init) && PlausibleFacts(last)
    ensures Single(last).Some?
    ensures FoldSummary(init + [last]) == Plus(FoldSummary(init), Single(last))
  {
    FoldIsNormal(init);
    assert (init + [last])[..|init|] == init;
    if FoldSummary(init).Some? {
      ObserveIsAdd(FoldSummary(init).value, last);
    } else {
      ObserveIsAdd(EMPTY, last);
    }
  }

  /** The fold of a concatenation is the sum of the folds, overflow included. */
  lemma {:induction false} FoldIsHomomorphism(a: seq<FactSample>, b: seq<FactSample>)
    requires PlausibleFactStream(a) && PlausibleFactStream(b)
    ensures FoldSummary(a + b) == Plus(FoldSummary(a), FoldSummary(b))
  {
    FoldIsNormal(a);
    if b == [] {
      assert a + b == a;
      if FoldSummary(a).Some? {
        AddIdentity(FoldSummary(a).value);
      }
    } else {
      var init, last := b[..|b| - 1], b[|b| - 1];
      assert PlausibleFacts(last);
      FoldIsHomomorphism(a, init);
      assert a + b == (a + init) + [last] && b == init + [last];
      FoldLast(a + init, last);
      FoldLast(init, last);
      PlusAssociates(FoldSummary(a), FoldSummary(init), Single(last));
    }
  }

  lemma PlusAssociates(a: Option<OperationalSummary>, b: Option<OperationalSummary>, c: Option<OperationalSummary>)
    ensures Plus(Plus(a, b), c) == Plus(a, Plus(b, c))
  {
    if a.Some? && b.Some? && c.Some? {
      AddAssociates(a.value, b.value, c.value);
    }
  }

  lemma FoldCommutes(a: seq<FactSample>, b: seq<FactSample>)
    requires PlausibleFactStream(a) && PlausibleFactStream(b)
    ensures FoldSummary(a + b) == FoldSummary(b + a)
  {
    FoldIsHomomorphism(a, b);
    FoldIsHomomorphism(b, a);
    FoldIsNormal(a);
    FoldIsNormal(b);
    if FoldSummary(a).Some? && FoldSummary(b).Some? {
      AddCommutes(FoldSummary(a).value, FoldSummary(b).value);
    }
  }

  /** The block holding one occurrence, moved to the end. */
  lemma FoldMovesOne(before: seq<FactSample>, x: FactSample, after: seq<FactSample>)
    requires PlausibleFactStream(before) && PlausibleFactStream(after) && PlausibleFacts(x)
    ensures FoldSummary(before + [x] + after) == FoldSummary(before + after + [x])
  {
    hide FoldSummary, PlausibleFacts;
    assert before + [x] + after == before + ([x] + after) && before + after + [x] == before + (after + [x]);
    FoldIsHomomorphism(before, [x] + after);
    FoldIsHomomorphism(before, after + [x]);
    FoldCommutes([x], after);
  }

  /** Two streams of the same records fold alike, whatever their order, overflow included. */
  lemma {:induction false} FoldIgnoresOrder(a: seq<FactSample>, b: seq<FactSample>)
    requires multiset(a) == multiset(b) && PlausibleFactStream(a) && PlausibleFactStream(b)
    ensures FoldSummary(a) == FoldSummary(b)
  {
    hide PlausibleFacts, Plus, Single;
    if a == [] {
      assert |multiset(b)| == 0;
    } else {
      var i := SameWithoutOne(a, b);
      var init, x, before, after := a[..|a| - 1], a[|a| - 1], b[..i], b[i + 1..];
      assert a == init + [x] && b == before + [x] + after;
      assert PlausibleFacts(b[i]);
      FoldMovesOne(before, x, after);
      FoldIgnoresOrder(init, before + after);
      FoldLast(init, x);
      FoldLast(before + after, x);
    }
  }

  // ---- The restore-time validator -----------------------------------------------------------------------------

  function LowTotal(b: DurationBuckets, k: nat): nat
    requires k <= BUCKETS
  {
    if k == 0 then 0 else LowTotal(b, k - 1) + b[k - 1] * BucketLow(k - 1)
  }

  function HighTotal(b: DurationBuckets, k: nat): nat
    requires k <= BUCKETS
  {
    if k == 0 then 0 else HighTotal(b, k - 1) + b[k - 1] * BucketHigh(k - 1)
  }

  /** The sum lies between every count at its bucket's lower edge and every count at its upper edge. */
  predicate SumWithinBuckets(b: DurationBuckets, sum: nat) {
    LowTotal(b, BUCKETS) <= sum <= HighTotal(b, BUCKETS)
  }

  predicate ExtremaInBuckets(b: DurationBuckets, lo: nat, hi: nat) {
    forall i | 0 <= i < BUCKETS :: (i == lo || i == hi ==> b[i] != 0) && (i < lo || i > hi ==> b[i] == 0)
  }

  predicate ValidBuckets(b: DurationBuckets, d: DurationSummary) {
    && Total(b) == d.count
    && (d.count > 0 ==> SumWithinBuckets(b, d.sum) && ExtremaInBuckets(b, DurationBucket(d.min), DurationBucket(d.max)))
  }

  predicate ValidHttp(h: HttpStatusCounts, http429: U64, observations: nat) {
    && h.informational + h.success + h.redirection + h.clientError + h.serverError + h.unavailable == observations
    && http429 <= h.clientError
  }

  predicate ValidTokens(t: TokenCounts, observations: nat) {
    && t.observed + t.unobserved == observations
    && (t.observed == 0 ==> t.input == 0 && t.output == 0 && t.unsplit == 0)
  }

  /** The validator's rules over unbounded integers. */
  predicate ValidSummary(s: OperationalSummary, observations: nat) {
    && ValidRestored(s.durations, s.spanStatus, observations)
    && ValidBuckets(s.buckets, s.durations)
    && ValidHttp(s.httpStatus, s.http429, observations)
    && ValidTokens(s.tokens, observations)
  }

  lemma EdgesAreNatural(b: U64, i: nat)
    requires i < BUCKETS
    ensures b * BucketLow(i) >= 0 && b * BucketHigh(i) >= 0
  {
  }

  lemma {:induction false} EdgeTotalsGrow(b: DurationBuckets, j: nat, k: nat)
    requires j <= k <= BUCKETS
    ensures LowTotal(b, j) <= LowTotal(b, k) && HighTotal(b, j) <= HighTotal(b, k)
  {
    hide BucketLow, BucketHigh;
    if j < k {
      EdgeTotalsGrow(b, j, k - 1);
      EdgesAreNatural(b[k - 1], k - 1);
    }
  }

  /** The bound checks as written, with an overflow flag on each side. */
  method CheckSumAgainstBuckets(b: DurationBuckets, sum: U64) returns (ok: bool)
    ensures ok <==> SumWithinBuckets(b, sum)
  {
    var lower: U64, upper: U64 := 0, 0;
    var lowerOverflow, upperOverflow := false, false;
    for i := 0 to BUCKETS
      invariant if lowerOverflow then LowTotal(b, i) > MAX_UINT64 else lower == LowTotal(b, i)
      invariant if upperOverflow then HighTotal(b, i) > MAX_UINT64 else upper == HighTotal(b, i)
    {
      var low := AddMulNoOverflow(lower, b[i], BucketLow(i));
      if low.Some? {
        lower := low.value;
      } else {
        lowerOverflow := true;
      }
      var high := AddMulNoOverflow(upper, b[i], BucketHigh(i));
      if high.Some? {
        upper := high.value;
      } else {
        upperOverflow := true;
      }
      EdgeTotalsGrow(b, i, i + 1);
    }
    if lowerOverflow || sum < lower {
      return false;
    }
    ok := !(!upperOverflow && sum > upper);
  }

  method CheckExtremaBuckets(b: DurationBuckets, lo: nat, hi: nat) returns (ok: bool)
    ensures ok <==> ExtremaInBuckets(b, lo, hi)
  {
    for i := 0 to BUCKETS
      invariant forall k | 0 <= k < i :: (k == lo || k == hi ==> b[k] != 0) && (k < lo || k > hi ==> b[k] == 0)
    {
      if (i == lo || i == hi) && b[i] == 0 {
        return false;
      }
      if (i < lo || i > hi) && b[i] != 0 {
        return false;
      }
    }
    ok := true;
  }

  lemma HttpListTotal(h: HttpStatusCounts)
    ensures Total([h.informational, h.success, h.redirection, h.clientError, h.serverError, h.unavailable])
         == h.informational + h.success + h.redirection + h.clientError + h.serverError + h.unavailable
  {
    var all := [h.informational, h.success, h.redirection, h.clientError, h.serverError, h.unavailable];
    assert all == [h.informational, h.success, h.redirection] + [h.clientError, h.serverError, h.unavailable];
    TotalAppend([h.informational, h.success, h.redirection], [h.clientError, h.serverError, h.unavailable]);
    TotalOfThree(h.informational, h.success, h.redirection);
    TotalOfThree(h.clientError, h.serverError, h.unavailable);
  }

  method ValidateDurationBuckets(b: DurationBuckets, d: DurationSummary) returns (ok: bool)
    ensures ok <==> ValidBuckets(b, d)
  {
    var bucketTotal := SumNoOverflow(b);
    if bucketTotal.None? || bucketTotal.value != d.count {
      return false;
    }
    if d.count > 0 {
      ok := CheckSumAgainstBuckets(b, d.sum);
      if !ok {
        return;
      }
      ok := CheckExtremaBuckets(b, DurationBucket(d.min), DurationBucket(d.max));
      return;
    }
    ok := true;
  }

  method ValidateOperationalSummary(s: OperationalSummary, observations: U64) returns (ok: bool)
    ensures ok <==> ValidSummary(s, observations)
  {
    ok := ValidateRestoredOperational(s.durations, s.spanStatus, observations);
    if !ok {
      return;
    }
    ok := ValidateDurationBuckets(s.buckets, s.durations);
    if !ok {
      return;
    }
    var h := s.httpStatus;
    HttpListTotal(h);
    var httpTotal := SumNoOverflow([h.informational, h.success, h.redirection, h.clientError, h.serverError, h.unavailable]);
    if httpTotal.None? || httpTotal.value != observations || s.http429 > h.clientError {
      return false;
    }
    var t := s.tokens;
    TotalOfTwo(t.observed, t.unobserved);
    var tokenTotal := SumNoOverflow([t.observed, t.unobserved]);
    if tokenTotal.None? || tokenTotal.value != observations {
      return false;
    }
    ok := !(t.observed == 0 && (t.input != 0 || t.output != 0 || t.unsplit != 0));
  }

  // ---- Soundness ----------------------------------------------------------------------------------------------

  lemma {:induction false} TotalAddBuckets(a: seq<U64>, b: seq<U64>, c: seq<U64>)
    requires |a| == |b| == |c| && forall i | 0 <= i < |a| :: c[i] as int == a[i] as int + b[i] as int
    ensures Total(c) == Total(a) + Total(b)
  {
    if a != [] {
      TotalAddBuckets(a[1..], b[1..], c[1..]);
    }
  }

  lemma Distribute(a: int, b: int, w: int)
    ensures (a + b) * w == a * w + b * w
  {
  }

  lemma {:induction false} EdgeTotalsAdd(a: DurationBuckets, b: DurationBuckets, c: DurationBuckets, k: nat)
    requires k <= BUCKETS && forall i | 0 <= i < BUCKETS :: c[i] as int == a[i] as int + b[i] as int
    ensures LowTotal(c, k) == LowTotal(a, k) + LowTotal(b, k)
    ensures HighTotal(c, k) == HighTotal(a, k) + HighTotal(b, k)
  {
    if k > 0 {
      EdgeTotalsAdd(a, b, c, k - 1);
      Distribute(a[k - 1], b[k - 1], BucketLow(k - 1));
      Distribute(a[k - 1], b[k - 1], BucketHigh(k - 1));
    }
  }

  lemma {:induction false} EmptyBuckets(b: DurationBuckets, k: nat)
    requires k <= BUCKETS && forall i | 0 <= i < BUCKETS :: b[i] == 0
    ensures LowTotal(b, k) == 0 && HighTotal(b, k) == 0
  {
    if k > 0 {
      EmptyBuckets(b, k - 1);
    }
  }

  lemma {:induction false} ZeroTotal(b: seq<U64>)
    ensures Total(b) == 0 <==> forall i | 0 <= i < |b| :: b[i] == 0
  {
    if b != [] {
      ZeroTotal(b[1..]);
      assert (forall i | 0 <= i < |b| :: b[i] == 0) <==> b[0] == 0 && forall i | 0 <= i < |b[1..]| :: b[1..][i] == 0 by {
        if b[0] == 0 && forall i | 0 <= i < |b[1..]| :: b[1..][i] == 0 {
          forall i | 0 <= i < |b| ensures b[i] == 0 {
            if i > 0 { assert b[1..][i - 1] == 0; }
          }
        }
        if forall i | 0 <= i < |b| :: b[i] == 0 {
          forall i | 0 <= i < |b[1..]| ensures b[1..][i] == 0 {
            assert b[i + 1] == 0;
          }
        }
      }
    }
  }

  lemma AddKeepsExtrema(a: DurationBuckets, d: DurationSummary, b: DurationBuckets, e: DurationSummary, c: DurationBuckets, f: DurationSummary)
    requires ValidBuckets(a, d) && ValidBuckets(b, e) && d.max <= MAX_DURATION_NANOS && e.max <= MAX_DURATION_NANOS
    requires (d.count > 0 ==> d.min <= d.max) && (e.count > 0 ==> e.min <= e.max)
    requires AddBuckets(a, b) == Some(c) && AddDurations(d, e) == Some(f) && f.count > 0
    ensures ExtremaInBuckets(c, DurationBucket(f.min), DurationBucket(f.max))
  {
    ZeroTotal(a);
    ZeroTotal(b);
    if d.count > 0 && e.count > 0 {
      BucketMonotone(Min(d.min, e.min), d.min);
      BucketMonotone(Min(d.min, e.min), e.min);
      BucketMonotone(d.max, Max(d.max, e.max));
      BucketMonotone(e.max, Max(d.max, e.max));
    }
  }

  lemma AddKeepsBuckets(a: DurationBuckets, d: DurationSummary, b: DurationBuckets, e: DurationSummary, c: DurationBuckets, f: DurationSummary)
    requires ValidBuckets(a, d) && ValidBuckets(b, e) && ValidStatistics(d) && ValidStatistics(e)
    requires AddBuckets(a, b) == Some(c) && AddDurations(d, e) == Some(f)
    ensures ValidBuckets(c, f)
  {
    TotalAddBuckets(a, b, c);
    EdgeTotalsAdd(a, b, c, BUCKETS);
    ZeroTotal(a);
    ZeroTotal(b);
    if d.count == 0 { EmptyBuckets(a, BUCKETS); }
    if e.count == 0 { EmptyBuckets(b, BUCKETS); }
    if f.count > 0 {
      AddKeepsExtrema(a, d, b, e, c, f);
    }
  }

  /** If two summaries are valid for m and n observations and their sum does not overflow, it is valid for m + n. */
  lemma AddKeepsValid(s: OperationalSummary, m: U64, o: OperationalSummary, n: U64)
    requires ValidSummary(s, m) && ValidSummary(o, n) && m + n <= MAX_UINT64 && Add(s, o).Some?
    ensures ValidSummary(Add(s, o).value, m + n)
  {
    AddKeepsRestoredValid(s.durations, s.spanStatus, m, o.durations, o.spanStatus, n);
    AddKeepsBuckets(s.buckets, s.durations, o.buckets, o.durations, Add(s, o).value.buckets, Add(s, o).value.durations);
  }

  lemma {:induction false} OneBucketTotals(b: DurationBuckets, j: nat, k: nat)
    requires j < BUCKETS && k <= BUCKETS && forall i | 0 <= i < BUCKETS :: b[i] == if i == j then 1 else 0
    ensures LowTotal(b, k) == if j < k then BucketLow(j) else 0
    ensures HighTotal(b, k) == if j < k then BucketHigh(j) else 0
  {
    if k > 0 {
      OneBucketTotals(b, j, k - 1);
    }
  }

  lemma {:induction false} OneBucketSum(b: seq<U64>, j: nat)
    requires j < |b| && forall i | 0 <= i < |b| :: b[i] == if i == j then 1 else 0
    ensures Total(b) == 1
  {
    if j == 0 {
      assert forall i | 0 <= i < |b[1..]| :: b[1..][i] == 0;
      ZeroTotal(b[1..]);
    } else {
      OneBucketSum(b[1..], j - 1);
    }
  }

  lemma SingleBucketsValid(duration: DurationField)
    requires !duration.Malformed? && (duration.Nanos? ==> duration.nanos <= MAX_DURATION_NANOS)
    ensures CountBucket(NO_BUCKETS, duration).Some? && FoldDurationField(NO_DURATIONS, duration).Ok?
    ensures ValidBuckets(CountBucket(NO_BUCKETS, duration).value, FoldDurationField(NO_DURATIONS, duration).value)
  {
    var b := CountBucket(NO_BUCKETS, duration).value;
    if duration.Nanos? {
      var j := DurationBucket(duration.nanos);
      BucketHolds(duration.nanos);
      assert forall i | 0 <= i < BUCKETS :: b[i] == if i == j then 1 else 0;
      OneBucketSum(b, j);
      OneBucketTotals(b, j, BUCKETS);
    } else {
      ZeroTotal(b);
    }
  }

  lemma SingleStatisticsValid(duration: DurationField, status: SpanStatus)
    requires Plausible(Sample(duration, status))
    ensures FoldDurationField(NO_DURATIONS, duration).Ok? && CountStatus(NO_STATUSES, status).Ok?
    ensures ValidRestored(FoldDurationField(NO_DURATIONS, duration).value, CountStatus(NO_STATUSES, status).value, 1)
  {
  }

  lemma SingleHttpValid(code: U64)
    ensures CountHttp(EMPTY.httpStatus, code).Some? && Count429(0, code).Some?
    ensures ValidHttp(CountHttp(EMPTY.httpStatus, code).value, Count429(0, code).value, 1)
  {
  }

  lemma SingleTokensValid(u: Usage)
    ensures CountTokens(EMPTY.tokens, u).Some? && ValidTokens(CountTokens(EMPTY.tokens, u).value, 1)
  {
  }

  lemma SingleIsValid(x: FactSample)
    requires PlausibleFacts(x)
    ensures Single(x).Some? && ValidSummary(Single(x).value, 1)
  {
    SingleParts(x);
    SingleBucketsValid(x.duration);
    SingleStatisticsValid(x.duration, x.status);
    SingleHttpValid(x.facts.httpStatusCode);
    SingleTokensValid(x.facts.usage);
    PartsValid(Single(x).value, 1);
  }

  lemma SingleParts(x: FactSample)
    requires PlausibleFacts(x)
    ensures Single(x).Some?
    ensures var s := Single(x).value;
            && CountBucket(NO_BUCKETS, x.duration) == Some(s.buckets)
            && FoldDurationField(NO_DURATIONS, x.duration) == Ok(s.durations)
            && CountStatus(NO_STATUSES, x.status) == Ok(s.spanStatus)
            && CountHttp(EMPTY.httpStatus, x.facts.httpStatusCode) == Some(s.httpStatus)
            && Count429(0, x.facts.httpStatusCode) == Some(s.http429)
            && CountTokens(EMPTY.tokens, x.facts.usage) == Some(s.tokens)
  {
    CountBucketIsAdd(NO_BUCKETS, x.duration);
  }

  lemma PartsValid(s: OperationalSummary, n: nat)
    requires ValidRestored(s.durations, s.spanStatus, n) && ValidBuckets(s.buckets, s.durations)
    requires ValidHttp(s.httpStatus, s.http429, n) && ValidTokens(s.tokens, n)
    ensures ValidSummary(s, n)
  {
  }

  lemma NoBucketsTotal()
    ensures Total(NO_BUCKETS) == 0
  {
    var b: DurationBuckets := NO_BUCKETS;
    forall i | 0 <= i < |b| ensures b[i] == 0 {}
    ZeroTotal(b);
  }

  lemma EmptyIsValid()
    ensures ValidSummary(EMPTY, 0)
  {
    UnavailableIsValid(0);
    assert UnavailableOperational(0) == EMPTY;
  }

  /** One more accepted record keeps a valid summary valid. */
  lemma ObserveKeepsValid(s: OperationalSummary, n: U64, x: FactSample)
    requires ValidSummary(s, n) && n < MAX_UINT64 && PlausibleFacts(x)
    requires Observe(s, x.duration, x.status, x.facts).Ok?
    ensures ValidSummary(Observe(s, x.duration, x.status, x.facts).value, n + 1)
  {
    ObserveIsAdd(s, x);
    SingleIsValid(x);
    AddKeepsValid(s, n, Single(x).value, 1);
  }

  /** Every summary a stream of accepted records folds to passes the validator for that many observations. */
  lemma {:induction false} ObservedIsValid(stream: seq<FactSample>)
    requires PlausibleFactStream(stream) && |stream| <= MAX_UINT64 && FoldSummary(stream).Some?
    ensures ValidSummary(FoldSummary(stream).value, |stream|)
  {
    if stream == [] {
      EmptyIsValid();
    } else {
      var init, last := stream[..|stream| - 1], stream[|stream| - 1];
      assert PlausibleFacts(last);
      ObservedIsValid(init);
      ObserveKeepsValid(FoldSummary(init).value, |init|, last);
    }
  }

  /** The summary the migration writes passes the validator for its observations. */
  lemma UnavailableIsValid(observations: U64)
    ensures ValidSummary(UnavailableOperational(observations), observations)
  {
    NoBucketsTotal();
  }
}
