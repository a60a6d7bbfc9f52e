/** Exactly which bucketed summaries a stream of records produces, part by part: platform/behavior_operational.go's validator
    accepts all of these and, in the sum against the buckets and in the tokens against the observations, a few more. */
module SummaryExactness {
  import opened Bounded
  import opened Operational
  import F = Fidelity
  import opened BehaviorOperational
  import opened BucketExactness

  // ---- A stream folds part by part ----------------------------------------------------------------------------

  function Samples(stream: seq<FactSample>): (s: seq<Sample>)
    ensures |s| == |stream|
  {
    if stream == [] then []
    else Samples(stream[..|stream| - 1]) + [Sample(stream[|stream| - 1].duration, stream[|stream| - 1].status)]
  }

  function FoldBuckets(stream: seq<Sample>): Option<DurationBuckets> {
    if stream == [] then Some(NO_BUCKETS)
    else
      match FoldBuckets(stream[..|stream| - 1])
      case None => None
      case Some(b) => CountBucket(b, stream[|stream| - 1].duration)
  }

  function FoldCodes(codes: seq<U64>): Option<(HttpStatusCounts, U64)> {
    if codes == [] then Some((EMPTY.httpStatus, 0))
    else
      match FoldCodes(codes[..|codes| - 1])
      case None => None
      case Some(p) =>
        match (CountHttp(p.0, codes[|codes| - 1]), Count429(p.1, codes[|codes| - 1]))
        case (Some(h), Some(n)) => Some((h, n))
        case _ => None
  }

  function FoldUsages(us: seq<Usage>): Option<TokenCounts> {
    if us == [] then Some(EMPTY.tokens)
    else
      match FoldUsages(us[..|us| - 1])
      case None => None
      case Some(t) => CountTokens(t, us[|us| - 1])
  }

  function Codes(stream: seq<FactSample>): (s: seq<U64>)
    ensures |s| == |stream|
  {
    if stream == [] then [] else Codes(stream[..|stream| - 1]) + [stream[|stream| - 1].facts.httpStatusCode]
  }

  function Usages(stream: seq<FactSample>): (s: seq<Usage>)
    ensures |s| == |stream|
  {
    if stream == [] then [] else Usages(stream[..|stream| - 1]) + [stream[|stream| - 1].facts.usage]
  }

  /** The parts of a fold, put together. */
  predicate PartsOf(r: Option<OperationalSummary>, p: Option<(DurationSummary, SpanStatusCounts)>, b: Option<DurationBuckets>,
                    h: Option<(HttpStatusCounts, U64)>, t: Option<TokenCounts>) {
    r == if p.Some? && b.Some? && h.Some? && t.Some?
         then Some(OperationalSummary(b.value, p.value.0, p.value.1, h.value.0, h.value.1, t.value)) else None
  }

  lemma {:induction false} FoldSplits(stream: seq<FactSample>)
    ensures PartsOf(FoldSummary(stream), FoldStream(Samples(stream)), FoldBuckets(Samples(stream)), FoldCodes(Codes(stream)),
                    FoldUsages(Usages(stream)))
  {
    hide ObserveOperational, CountBucket, CountHttp, Count429, CountTokens;
    if stream != [] {
      var init := stream[..|stream| - 1];
      FoldSplits(init);
      assert Samples(stream)[..|init|] == Samples(init) && Codes(stream)[..|init|] == Codes(init) && Usages(stream)[..|init|] == Usages(init);
    }
  }

  // ---- Durations and buckets ----------------------------------------------------------------------------------

  lemma {:induction false} BucketsAreHistogram(stream: seq<Sample>)
    requires |stream| <= MAX_UINT64
    ensures FoldBuckets(stream).Some?
    ensures forall i | 0 <= i < BUCKETS :: FoldBuckets(stream).value[i] == Histogram(Measured(stream), i) <= |stream|
  {
    if stream == [] {
    } else {
      var init, last := stream[..|stream| - 1], stream[|stream| - 1];
      BucketsAreHistogram(init);
      if last.duration.Nanos? {
        forall i ensures Histogram(Measured(stream), i)
                         == Histogram(Measured(init), i) + (if DurationBucket(last.duration.nanos) == i then 1 else 0) {
          HistogramConcat(Measured(init), [last.duration.nanos], i);
          HistogramOne(last.duration.nanos, i);
        }
      } else {
        assert Measured(init) + [] == Measured(init);
      }
    }
  }

  // ---- What a summary counts ----------------------------------------------------------------------------------

  /** Samples whose duration was measured between two bounds. */
  function TimedWithin(stream: seq<FactSample>, lo: nat, hi: nat): (n: nat)
    ensures n <= |stream|
  {
    if stream == [] then 0
    else
      var d := stream[|stream| - 1].duration;
      TimedWithin(stream[..|stream| - 1], lo, hi) + (if d.Nanos? && lo <= d.nanos <= hi then 1 else 0)
  }

  function Statused(stream: seq<FactSample>, status: SpanStatus): (n: nat)
    ensures n <= |stream|
  {
    if stream == [] then 0 else Statused(stream[..|stream| - 1], status) + (if stream[|stream| - 1].status == status then 1 else 0)
  }

  /** Samples whose HTTP status code lies between two bounds; none is stated as zero. */
  function Coded(stream: seq<FactSample>, lo: nat, hi: nat): (n: nat)
    ensures n <= |stream|
  {
    if stream == [] then 0
    else Coded(stream[..|stream| - 1], lo, hi) + (if lo <= stream[|stream| - 1].facts.httpStatusCode <= hi then 1 else 0)
  }

  /** What the samples that reported any token count reported, and how many they are. */
  function ReportedSums(stream: seq<FactSample>): Sums {
    if stream == [] then Sums(0, 0, 0, 0)
    else
      var s, u := ReportedSums(stream[..|stream| - 1]), stream[|stream| - 1].facts.usage;
      if u.hasInput || u.hasOutput || u.hasUnsplit
      then Sums(s.input + u.input, s.output + u.output, s.unsplit + u.unsplit, s.observed + 1) else s
  }

  predicate CountsMeasured(b: DurationBuckets, stream: seq<FactSample>) {
    forall i | 0 <= i < BUCKETS :: b[i] == TimedWithin(stream, BucketLow(i), BucketHigh(i))
  }

  predicate CountsStatuses(c: SpanStatusCounts, stream: seq<FactSample>) {
    && c.unavailable == Statused(stream, StatusUnavailable) && c.unset == Statused(stream, StatusUnset)
    && c.ok == Statused(stream, StatusOK) && c.error == Statused(stream, StatusError)
  }

  predicate CountsCodes(h: HttpStatusCounts, http429: U64, stream: seq<FactSample>) {
    && h.unavailable == Coded(stream, 0, 0) && h.informational == Coded(stream, 100, 199) && h.success == Coded(stream, 200, 299)
    && h.redirection == Coded(stream, 300, 399) && h.clientError == Coded(stream, 400, 499) && h.serverError == Coded(stream, 500, 599)
    && http429 == Coded(stream, 429, 429)
  }

  predicate CountsTokens(t: TokenCounts, stream: seq<FactSample>) {
    && t.input == ReportedSums(stream).input && t.output == ReportedSums(stream).output && t.unsplit == ReportedSums(stream).unsplit
    && t.observed == ReportedSums(stream).observed && t.observed + t.unobserved == |stream|
  }

  /** Every counter of the summary by what the samples it counts said. */
  ghost predicate CountsStream(s: OperationalSummary, stream: seq<FactSample>) {
    && CountsMeasured(s.buckets, stream) && Summarizes(s.durations, FactsMeasured(stream), |stream|)
    && CountsStatuses(s.spanStatus, stream) && CountsCodes(s.httpStatus, s.http429, stream) && CountsTokens(s.tokens, stream)
  }

  lemma ObserveSplits(s: OperationalSummary, x: FactSample)
    requires Observe(s, x.duration, x.status, x.facts).Ok?
    ensures var t := Observe(s, x.duration, x.status, x.facts).value;
            && FoldDurationField(s.durations, x.duration) == Ok(t.durations) && CountStatus(s.spanStatus, x.status) == Ok(t.spanStatus)
            && CountBucket(s.buckets, x.duration) == Some(t.buckets) && CountHttp(s.httpStatus, x.facts.httpStatusCode) == Some(t.httpStatus)
            && Count429(s.http429, x.facts.httpStatusCode) == Some(t.http429) && CountTokens(s.tokens, x.facts.usage) == Some(t.tokens)
  {
    hide FoldDurationField, CountStatus, CountBucket, CountHttp, Count429, CountTokens;
  }

  lemma MeasuredNext(b: DurationBuckets, stream: seq<FactSample>, x: FactSample)
    requires CountsMeasured(b, stream) && PlausibleFacts(x) && CountBucket(b, x.duration).Some?
    ensures CountsMeasured(CountBucket(b, x.duration).value, stream + [x])
  {
    hide DurationBucket, BucketLow, BucketHigh;
    assert (stream + [x])[..|stream|] == stream;
    if x.duration.Nanos? {
      forall i | 0 <= i < BUCKETS ensures DurationBucket(x.duration.nanos) == i <==> BucketLow(i) <= x.duration.nanos <= BucketHigh(i) {
        BucketUnique(x.duration.nanos, i);
      }
    }
  }

  lemma StatusesNext(c: SpanStatusCounts, stream: seq<FactSample>, x: FactSample)
    requires CountsStatuses(c, stream) && CountStatus(c, x.status).Ok?
    ensures CountsStatuses(CountStatus(c, x.status).value, stream + [x])
  {
    assert (stream + [x])[..|stream|] == stream;
  }

  lemma CodesNext(h: HttpStatusCounts, n: U64, stream: seq<FactSample>, x: FactSample)
    requires CountsCodes(h, n, stream) && ValidFacts(x.facts)
    requires CountHttp(h, x.facts.httpStatusCode).Some? && Count429(n, x.facts.httpStatusCode).Some?
    ensures CountsCodes(CountHttp(h, x.facts.httpStatusCode).value, Count429(n, x.facts.httpStatusCode).value, stream + [x])
  {
    assert (stream + [x])[..|stream|] == stream;
  }

  lemma TokensNext(t: TokenCounts, stream: seq<FactSample>, x: FactSample)
    requires CountsTokens(t, stream) && CountTokens(t, x.facts.usage).Some?
    ensures CountsTokens(CountTokens(t, x.facts.usage).value, stream + [x])
  {
    assert (stream + [x])[..|stream|] == stream;
  }

  lemma MeasurableField(d: DurationSummary, field: DurationField)
    requires FoldDurationField(d, field).Ok?
    ensures !field.Malformed?
  {
  }

  lemma FactsMeasuredSnoc(stream: seq<FactSample>, x: FactSample)
    ensures FactsMeasured(stream + [x]) == FactsMeasured(stream) + (if x.duration.Nanos? then [x.duration.nanos] else [])
  {
    assert (stream + [x])[..|stream|] == stream;
  }

  lemma DurationsNext(d: DurationSummary, stream: seq<FactSample>, x: FactSample)
    requires Summarizes(d, FactsMeasured(stream), |stream|) && FoldDurationField(d, x.duration).Ok? && |stream| < MAX_UINT64
    ensures Summarizes(FoldDurationField(d, x.duration).value, FactsMeasured(stream + [x]), |stream| + 1)
  {
    hide Summarizes, FoldDurationField, FactsMeasured;
    MeasurableField(d, x.duration);
    SummarizesStep(d, FactsMeasured(stream), |stream|, x.duration);
    FactsMeasuredSnoc(stream, x);
  }

  lemma CountsNextSample(s: OperationalSummary, stream: seq<FactSample>, x: FactSample)
    requires CountsStream(s, stream) && PlausibleFacts(x) && Observe(s, x.duration, x.status, x.facts).Ok? && |stream| < MAX_UINT64
    ensures CountsStream(Observe(s, x.duration, x.status, x.facts).value, stream + [x])
  {
    hide CountsMeasured, Summarizes, CountsStatuses, CountsCodes, CountsTokens, Observe, FoldDurationField, CountStatus, CountBucket, CountHttp,
         Count429, CountTokens, FactsMeasured, ValidFacts;
    ObserveSplits(s, x);
    MeasuredNext(s.buckets, stream, x);
    DurationsNext(s.durations, stream, x);
    StatusesNext(s.spanStatus, stream, x);
    CodesNext(s.httpStatus, s.http429, stream, x);
    TokensNext(s.tokens, stream, x);
  }

  lemma EmptyCountsNothing(none: seq<FactSample>)
    requires |none| == 0
    ensures CountsStream(EMPTY, none)
  {
  }

  /** What a stream of accepted records folds to counts exactly what they said: durations by bucket with their true statistics,
      statuses, codes by class and the 429s, and the tokens of those that reported any. */
  lemma {:induction false} FoldCountsStream(stream: seq<FactSample>)
    requires PlausibleFactStream(stream) && |stream| <= MAX_UINT64 && FoldSummary(stream).Some?
    ensures CountsStream(FoldSummary(stream).value, stream)
  {
    hide CountsStream, Observe, PlausibleFacts;
    if stream == [] {
      EmptyCountsNothing(stream);
    } else {
      var init, x := stream[..|stream| - 1], stream[|stream| - 1];
      assert stream == init + [x] && PlausibleFacts(stream[|stream| - 1]);
      FoldCountsStream(init);
      CountsNextSample(FoldSummary(init).value, init, x);
    }
  }

  // ---- Status codes -------------------------------------------------------------------------------------------

  /** The position of a code's class among the six counters. */
  function ClassOf(code: U64): nat {
    if code == 0 then 5 else if code < 200 then 0 else if code < 300 then 1 else if code < 400 then 2 else if code < 500 then 3 else 4
  }

  function ClassCount(h: HttpStatusCounts, j: nat): U64 {
    if j == 0 then h.informational else if j == 1 then h.success else if j == 2 then h.redirection
    else if j == 3 then h.clientError else if j == 4 then h.serverError else h.unavailable
  }

  function ClassTally(codes: seq<U64>, j: nat): (n: nat)
    ensures n <= |codes|
  {
    if codes == [] then 0 else ClassTally(codes[..|codes| - 1], j) + (if ClassOf(codes[|codes| - 1]) == j then 1 else 0)
  }

  function Tally429(codes: seq<U64>): (n: nat)
    ensures n <= |codes|
  {
    if codes == [] then 0 else Tally429(codes[..|codes| - 1]) + (if codes[|codes| - 1] == 429 then 1 else 0)
  }

  lemma {:induction false} CodesAreTallied(codes: seq<U64>)
    requires |codes| <= MAX_UINT64
    ensures FoldCodes(codes).Some? && FoldCodes(codes).value.1 == Tally429(codes)
    ensures forall j | 0 <= j <= 5 :: ClassCount(FoldCodes(codes).value.0, j) == ClassTally(codes, j)
  {
    if codes != [] {
      CodesAreTallied(codes[..|codes| - 1]);
      var p := FoldCodes(codes[..|codes| - 1]).value;
      assert forall j | 0 <= j <= 5 :: ClassCount(p.0, j) < MAX_UINT64;
      assert ClassCount(p.0, 0) < MAX_UINT64 && ClassCount(p.0, 1) < MAX_UINT64 && ClassCount(p.0, 2) < MAX_UINT64;
      assert ClassCount(p.0, 3) < MAX_UINT64 && ClassCount(p.0, 4) < MAX_UINT64 && ClassCount(p.0, 5) < MAX_UINT64;
    }
  }

  /** How many codes stand before a class's in the list below. */
  function Before(h: HttpStatusCounts, j: nat): nat {
    if j == 0 then 0 else Before(h, j - 1) + ClassCount(h, j - 1)
  }

  /** A code of each class in turn, as many as counted, the 429s first among the client errors. */
  function CodeAt(h: HttpStatusCounts, n429: U64, i: nat): U64 {
    if i < Before(h, 1) then 100 else if i < Before(h, 2) then 200 else if i < Before(h, 3) then 300
    else if i < Before(h, 3) + n429 then 429 else if i < Before(h, 4) then 400 else if i < Before(h, 5) then 500 else 0
  }

  function CodesFor(h: HttpStatusCounts, n429: U64, n: nat): (s: seq<U64>)
    ensures |s| == n
  {
    if n == 0 then [] else CodesFor(h, n429, n - 1) + [CodeAt(h, n429, n - 1)]
  }

  lemma ClassAt(h: HttpStatusCounts, n429: U64, i: nat, j: nat)
    requires n429 <= h.clientError && j < 5
    ensures ClassOf(CodeAt(h, n429, i)) == j <==> Before(h, j) <= i < Before(h, j + 1)
    ensures ClassOf(CodeAt(h, n429, i)) == 5 <==> Before(h, 5) <= i
    ensures CodeAt(h, n429, i) == 429 <==> Before(h, 3) <= i < Before(h, 3) + n429
  {
    assert Before(h, 1) == h.informational;
    assert Before(h, 2) == Before(h, 1) + h.success;
    assert Before(h, 3) == Before(h, 2) + h.redirection;
    assert Before(h, 4) == Before(h, 3) + h.clientError;
    assert Before(h, 5) == Before(h, 4) + h.serverError;
  }

  lemma BeforeNext(h: HttpStatusCounts, j: nat)
    ensures Before(h, j + 1) == Before(h, j) + ClassCount(h, j)
  {
  }

  lemma {:induction false} CodesTally(h: HttpStatusCounts, n429: U64, n: nat, j: nat)
    requires n429 <= h.clientError && j < 5
    ensures ClassTally(CodesFor(h, n429, n), j) == Clamp(n - Before(h, j), ClassCount(h, j))
    ensures ClassTally(CodesFor(h, n429, n), 5) == if n < Before(h, 5) then 0 else n - Before(h, 5)
    ensures Tally429(CodesFor(h, n429, n)) == Clamp(n - Before(h, 3), n429)
  {
    hide Before, CodeAt, ClassOf, ClassCount;
    if n > 0 {
      CodesTally(h, n429, n - 1, j);
      ClassAt(h, n429, n - 1, j);
      assert CodesFor(h, n429, n)[..n - 1] == CodesFor(h, n429, n - 1);
      BeforeNext(h, j);
    }
  }

  lemma CountsDecide(g: HttpStatusCounts, h: HttpStatusCounts)
    requires forall j | 0 <= j <= 5 :: ClassCount(g, j) == ClassCount(h, j)
    ensures g == h
  {
    assert ClassCount(g, 0) == ClassCount(h, 0) && ClassCount(g, 1) == ClassCount(h, 1) && ClassCount(g, 2) == ClassCount(h, 2);
    assert ClassCount(g, 3) == ClassCount(h, 3) && ClassCount(g, 4) == ClassCount(h, 4) && ClassCount(g, 5) == ClassCount(h, 5);
  }

  lemma {:induction false} BeforeGrows(h: HttpStatusCounts, j: nat, k: nat)
    requires j <= k
    ensures Before(h, j) <= Before(h, k)
  {
    if j < k {
      BeforeGrows(h, j, k - 1);
    }
  }

  lemma BeforeSums(h: HttpStatusCounts)
    ensures Before(h, 5) + h.unavailable == h.informational + h.success + h.redirection + h.clientError + h.serverError + h.unavailable
    ensures Before(h, 3) + h.clientError <= Before(h, 5)
  {
    assert Before(h, 5) == Before(h, 4) + h.serverError && Before(h, 4) == Before(h, 3) + h.clientError;
    assert Before(h, 3) == Before(h, 2) + h.redirection && Before(h, 2) == Before(h, 1) + h.success && Before(h, 1) == h.informational;
  }

  lemma ClassesTally(h: HttpStatusCounts, n429: U64, n: U64, j: nat)
    requires ValidHttp(h, n429, n) && j <= 5
    ensures ClassTally(CodesFor(h, n429, n), j) == ClassCount(h, j)
  {
    hide CodesFor, ClassTally, Before;
    BeforeSums(h);
    var k := if j < 5 then j else 0;
    CodesTally(h, n429, n, k);
    BeforeGrows(h, k + 1, 5);
    BeforeNext(h, k);
  }

  lemma CodesFold(h: HttpStatusCounts, n429: U64, n: U64)
    requires ValidHttp(h, n429, n)
    ensures FoldCodes(CodesFor(h, n429, n)) == Some((h, n429))
  {
    hide CodesFor, Before, ClassTally, Tally429, FoldCodes;
    var codes := CodesFor(h, n429, n);
    CodesAreTallied(codes);
    forall j | 0 <= j <= 5 ensures ClassCount(FoldCodes(codes).value.0, j) == ClassCount(h, j) {
      ClassesTally(h, n429, n, j);
    }
    CountsDecide(FoldCodes(codes).value.0, h);
    BeforeSums(h);
    CodesTally(h, n429, n, 3);
  }

  // ---- Tokens -------------------------------------------------------------------------------------------------

  datatype Sums = Sums(input: nat, output: nat, unsplit: nat, observed: nat)

  function PlusSums(a: Sums, b: Sums): Sums {
    Sums(a.input + b.input, a.output + b.output, a.unsplit + b.unsplit, a.observed + b.observed)
  }

  function SumsOf(u: Usage): Sums {
    if ReportsTokens(u) then Sums(u.input, u.output, u.unsplit, 1) else Sums(0, 0, 0, 0)
  }

  function TokenSums(us: seq<Usage>): Sums {
    if us == [] then Sums(0, 0, 0, 0) else PlusSums(TokenSums(us[..|us| - 1]), SumsOf(us[|us| - 1]))
  }

  /** What the fold has after k observations with these sums, or nothing where one does not fit. */
  function Counted(s: Sums, k: nat): Option<TokenCounts>
    requires s.observed <= k <= MAX_UINT64
  {
    if s.input <= MAX_UINT64 && s.output <= MAX_UINT64 && s.unsplit <= MAX_UINT64
    then Some(TokenCounts(s.input, s.output, s.unsplit, s.observed, k - s.observed)) else None
  }

  lemma CountedOneMore(s: Sums, u: Usage, k: nat)
    requires s.observed <= k < MAX_UINT64
    ensures PlusSums(s, SumsOf(u)).observed <= k + 1
    ensures Counted(PlusSums(s, SumsOf(u)), k + 1) == if Counted(s, k).Some? then CountTokens(Counted(s, k).value, u) else None
  {
  }

  lemma {:induction false} UsagesAreSummed(us: seq<Usage>)
    requires |us| <= MAX_UINT64
    ensures TokenSums(us).observed <= |us| && FoldUsages(us) == Counted(TokenSums(us), |us|)
  {
    if us != [] {
      hide Counted, CountTokens, PlusSums, SumsOf;
      UsagesAreSummed(us[..|us| - 1]);
      CountedOneMore(TokenSums(us[..|us| - 1]), us[|us| - 1], |us| - 1);
    }
  }

  lemma {:induction false} SumsConcat(a: seq<Usage>, b: seq<Usage>)
    ensures TokenSums(a + b) == PlusSums(TokenSums(a), TokenSums(b))
  {
    if b == [] {
      assert a + b == a;
    } else {
      assert (a + b)[..|a + b| - 1] == a + b[..|b| - 1];
      SumsConcat(a, b[..|b| - 1]);
    }
  }

  lemma SumsOne(u: Usage)
    ensures TokenSums([u]) == SumsOf(u)
  {
    assert [u][..0] == [];
  }

  /** A usage OperationalFacts.Validate passes. */
  predicate ValidUsage(u: Usage) {
    ValidFacts(Facts(0, u, F.FidelityUnstated, F.LayerUnspecified))
  }

  /** A usage as both producers fill it in: a part they did not find stays zero. */
  predicate ProducedUsage(u: Usage) {
    && ValidUsage(u) && (!u.hasInput ==> u.input == 0) && (!u.hasOutput ==> u.output == 0) && (!u.hasUnsplit ==> u.unsplit == 0)
  }

  ghost predicate AllProduced(us: seq<Usage>) {
    forall i | 0 <= i < |us| :: ProducedUsage(us[i])
  }

  ghost predicate AllValid(us: seq<Usage>) {
    forall i | 0 <= i < |us| :: ValidUsage(us[i])
  }

  /** How many observations it takes at least to report a count. */
  function ReportsNeeded(n: nat): nat {
    (n + MAX_TOKEN_COUNT - 1) / MAX_TOKEN_COUNT
  }

  /** There are observations enough for the input and output parts and, apart from these, for the unsplit totals. */
  predicate TokensFitObserved(t: TokenCounts) {
    ReportsNeeded(Max(t.input, t.output)) + ReportsNeeded(t.unsplit) <= t.observed
  }

  lemma ReportsBound(n: nat, k: nat)
    ensures n <= k * MAX_TOKEN_COUNT <==> ReportsNeeded(n) <= k
  {
  }

  function WholeReports(us: seq<Usage>): nat {
    if us == [] then 0 else WholeReports(us[..|us| - 1]) + (if us[|us| - 1].hasUnsplit then 1 else 0)
  }

  lemma {:induction false} ProducedSums(us: seq<Usage>)
    requires AllProduced(us)
    ensures var s, c := TokenSums(us), WholeReports(us);
            && c <= s.observed && s.unsplit <= c * MAX_TOKEN_COUNT
            && s.input <= (s.observed - c) * MAX_TOKEN_COUNT && s.output <= (s.observed - c) * MAX_TOKEN_COUNT
  {
    if us != [] {
      assert ProducedUsage(us[|us| - 1]);
      ProducedSums(us[..|us| - 1]);
    }
  }

  function SplitUsages(ins: seq<U64>, outs: seq<U64>): (us: seq<Usage>)
    requires |ins| == |outs|
    ensures |us| == |ins|
  {
    if ins == [] then [] else [Usage(true, ins[0], true, outs[0], false, 0)] + SplitUsages(ins[1..], outs[1..])
  }

  function WholeUsages(wholes: seq<U64>): (us: seq<Usage>)
    ensures |us| == |wholes|
  {
    if wholes == [] then [] else [Usage(false, 0, false, 0, true, wholes[0])] + WholeUsages(wholes[1..])
  }

  function NoUsages(n: nat): (us: seq<Usage>)
    ensures |us| == n
  {
    if n == 0 then [] else [NO_USAGE] + NoUsages(n - 1)
  }

  lemma {:induction false} SplitSums(ins: seq<U64>, outs: seq<U64>)
    requires |ins| == |outs| && forall i | 0 <= i < |ins| :: ins[i] <= MAX_TOKEN_COUNT && outs[i] <= MAX_TOKEN_COUNT
    ensures TokenSums(SplitUsages(ins, outs)) == Sums(Total(ins), Total(outs), 0, |ins|) && AllProduced(SplitUsages(ins, outs))
  {
    if ins != [] {
      var u := Usage(true, ins[0], true, outs[0], false, 0);
      SplitSums(ins[1..], outs[1..]);
      SumsConcat([u], SplitUsages(ins[1..], outs[1..]));
      SumsOne(u);
    }
  }

  lemma {:induction false} WholeSums(wholes: seq<U64>)
    requires forall i | 0 <= i < |wholes| :: wholes[i] <= MAX_TOKEN_COUNT
    ensures TokenSums(WholeUsages(wholes)) == Sums(0, 0, Total(wholes), |wholes|) && AllProduced(WholeUsages(wholes))
  {
    if wholes != [] {
      var u := Usage(false, 0, false, 0, true, wholes[0]);
      WholeSums(wholes[1..]);
      SumsConcat([u], WholeUsages(wholes[1..]));
      SumsOne(u);
    }
  }

  const NO_USAGE := Usage(false, 0, false, 0, false, 0)

  lemma AddsNothing(us: seq<Usage>)
    requires AllProduced(us)
    ensures TokenSums([NO_USAGE] + us) == TokenSums(us) && AllProduced([NO_USAGE] + us)
  {
    hide TokenSums;
    SumsConcat([NO_USAGE], us);
    SumsOne(NO_USAGE);
  }

  lemma {:induction false} NoSums(n: nat)
    ensures TokenSums(NoUsages(n)) == Sums(0, 0, 0, 0) && AllProduced(NoUsages(n))
  {
    hide AllProduced, ProducedUsage, SumsOf;
    if n > 0 {
      NoSums(n - 1);
      AddsNothing(NoUsages(n - 1));
    } else {
      NothingProduced();
    }
  }

  lemma NothingProduced()
    ensures AllProduced([])
  {
  }

  lemma ProducedConcat(a: seq<Usage>, b: seq<Usage>)
    requires AllProduced(a) && AllProduced(b)
    ensures AllProduced(a + b)
  {
    hide ProducedUsage;
  }

  /** Usages some producer can report, with the given sums. */
  lemma UsagesFor(t: TokenCounts, n: U64) returns (us: seq<Usage>)
    requires ValidTokens(t, n) && TokensFitObserved(t)
    ensures |us| == n && AllProduced(us) && FoldUsages(us) == Some(t)
  {
    hide TokenSums, FoldUsages, AllProduced, SplitUsages, WholeUsages;
    var a := ReportsNeeded(Max(t.input, t.output));
    ReportsBound(Max(t.input, t.output), a);
    ReportsBound(t.unsplit, t.observed - a);
    var ins := FillTotal(a, 0, MAX_TOKEN_COUNT, t.input);
    var outs := FillTotal(a, 0, MAX_TOKEN_COUNT, t.output);
    var wholes := FillTotal(t.observed - a, 0, MAX_TOKEN_COUNT, t.unsplit);
    SplitSums(ins, outs);
    WholeSums(wholes);
    NoSums(t.unobserved);
    us := SplitUsages(ins, outs) + WholeUsages(wholes) + NoUsages(t.unobserved);
    SumsConcat(SplitUsages(ins, outs), WholeUsages(wholes));
    SumsConcat(SplitUsages(ins, outs) + WholeUsages(wholes), NoUsages(t.unobserved));
    ProducedConcat(SplitUsages(ins, outs), WholeUsages(wholes));
    ProducedConcat(SplitUsages(ins, outs) + WholeUsages(wholes), NoUsages(t.unobserved));
    UsagesAreSummed(us);
  }

  /** What Validate alone leaves possible: it bounds a part only where the part is said to be present. */
  predicate TokensAdmitted(t: TokenCounts) {
    t.observed == 1 ==> t.input <= MAX_TOKEN_COUNT || t.output <= MAX_TOKEN_COUNT || t.unsplit <= MAX_TOKEN_COUNT
  }

  predicate SumsAdmitted(s: Sums) {
    && (s.observed == 0 ==> s == Sums(0, 0, 0, 0))
    && (s.observed == 1 ==> s.input <= MAX_TOKEN_COUNT || s.output <= MAX_TOKEN_COUNT || s.unsplit <= MAX_TOKEN_COUNT)
  }

  lemma OneMoreAdmitted(s: Sums, u: Usage)
    requires SumsAdmitted(s) && ValidUsage(u)
    ensures SumsAdmitted(PlusSums(s, SumsOf(u)))
  {
  }

  lemma {:induction false} ValidSums(us: seq<Usage>)
    requires AllValid(us)
    ensures SumsAdmitted(TokenSums(us))
  {
    hide ValidUsage, PlusSums, SumsOf;
    if us != [] {
      assert ValidUsage(us[|us| - 1]);
      ValidSums(us[..|us| - 1]);
      OneMoreAdmitted(TokenSums(us[..|us| - 1]), us[|us| - 1]);
    }
  }

  lemma OneReporting(t: TokenCounts) returns (u: Usage)
    requires t.input <= MAX_TOKEN_COUNT || t.output <= MAX_TOKEN_COUNT || t.unsplit <= MAX_TOKEN_COUNT
    ensures ValidUsage(u) && TokenSums([u]) == Sums(t.input, t.output, t.unsplit, 1)
  {
    u := Usage(t.input <= MAX_TOKEN_COUNT, t.input, t.input > MAX_TOKEN_COUNT && t.output <= MAX_TOKEN_COUNT, t.output,
               t.input > MAX_TOKEN_COUNT && t.output > MAX_TOKEN_COUNT, t.unsplit);
    SumsOne(u);
  }

  lemma ZeroWholes(k: nat) returns (us: seq<Usage>)
    ensures |us| == k && AllValid(us) && TokenSums(us) == Sums(0, 0, 0, k)
  {
    var zeros := FillTotal(k, 0, 0, 0);
    WholeSums(zeros);
    us := WholeUsages(zeros);
  }

  lemma ManyReporting(t: TokenCounts) returns (us: seq<Usage>)
    requires t.observed >= 2
    ensures |us| == t.observed && AllValid(us) && TokenSums(us) == Sums(t.input, t.output, t.unsplit, t.observed)
  {
    hide TokenSums;
    var u, v := Usage(true, 0, false, t.output, false, t.unsplit), Usage(false, t.input, true, 0, false, 0);
    var zeros := ZeroWholes(t.observed - 2);
    us := [u] + ([v] + zeros);
    SumsConcat([v], zeros);
    SumsConcat([u], [v] + zeros);
    SumsOne(u);
    SumsOne(v);
  }

  lemma ReportingFor(t: TokenCounts) returns (us: seq<Usage>)
    requires TokensAdmitted(t) && (t.observed == 0 ==> t.input == 0 && t.output == 0 && t.unsplit == 0)
    ensures |us| == t.observed && AllValid(us) && TokenSums(us) == Sums(t.input, t.output, t.unsplit, t.observed)
  {
    hide TokenSums, ValidUsage;
    if t.observed == 0 {
      us := ZeroWholes(0);
    } else if t.observed == 1 {
      var u := OneReporting(t);
      us := [u];
    } else {
      us := ManyReporting(t);
    }
  }

  lemma ValidConcat(a: seq<Usage>, b: seq<Usage>)
    requires AllValid(a) && AllValid(b)
    ensures AllValid(a + b)
  {
    hide ValidUsage;
  }

  /** Amounts beside the parts said to be present, with the given sums. */
  lemma AdmittedUsagesFor(t: TokenCounts, n: U64) returns (us: seq<Usage>)
    requires ValidTokens(t, n) && TokensAdmitted(t)
    ensures |us| == n && AllValid(us) && FoldUsages(us) == Some(t)
  {
    hide TokenSums, FoldUsages, AllValid, AllProduced, TokensAdmitted, NoUsages;
    var reporting := ReportingFor(t);
    NoSums(t.unobserved);
    us := reporting + NoUsages(t.unobserved);
    SumsConcat(reporting, NoUsages(t.unobserved));
    NoneIsValid(t.unobserved);
    ValidConcat(reporting, NoUsages(t.unobserved));
    UsagesAreSummed(us);
  }

  lemma NoneIsValid(n: nat)
    ensures AllValid(NoUsages(n))
  {
    NoSums(n);
  }

  // ---- A whole summary ----------------------------------------------------------------------------------------

  function Zip(xs: seq<U64>, s: OperationalSummary, us: seq<Usage>, n: nat): (stream: seq<FactSample>)
    requires n <= |us|
    ensures |stream| == n
  {
    if n == 0 then []
    else Zip(xs, s, us, n - 1)
         + [FactSample(DurationAt(xs, n - 1), StatusAt(s.spanStatus, n - 1),
                       Facts(CodeAt(s.httpStatus, s.http429, n - 1), us[n - 1], F.FidelityUnstated, F.LayerUnspecified))]
  }

  lemma {:induction false} ZipParts(xs: seq<U64>, s: OperationalSummary, us: seq<Usage>, n: nat)
    requires n <= |us|
    ensures Samples(Zip(xs, s, us, n)) == Witness(xs, s.spanStatus, n) && Usages(Zip(xs, s, us, n)) == us[..n]
    ensures Codes(Zip(xs, s, us, n)) == CodesFor(s.httpStatus, s.http429, n)
  {
    hide DurationAt, StatusAt, CodeAt;
    if n > 0 {
      ZipParts(xs, s, us, n - 1);
      assert Zip(xs, s, us, n)[..n - 1] == Zip(xs, s, us, n - 1);
      assert us[..n] == us[..n - 1] + [us[n - 1]];
    }
  }

  lemma {:induction false} ZipPlausible(xs: seq<U64>, s: OperationalSummary, us: seq<Usage>, n: nat)
    requires n <= |us| && AllValid(us) && forall x | x in xs :: x <= MAX_DURATION_NANOS
    ensures PlausibleFactStream(Zip(xs, s, us, n))
    ensures forall i | 0 <= i < n :: Zip(xs, s, us, n)[i].facts.usage == us[i]
  {
    if n > 0 {
      ZipPlausible(xs, s, us, n - 1);
      assert ValidUsage(us[n - 1]);
      assert n <= |xs| ==> xs[n - 1] in xs;
    }
  }

  lemma ListFor(s: OperationalSummary, n: U64) returns (xs: seq<U64>)
    requires ValidSummary(s, n) && (s.durations.count < 2 || TightSum(s.durations, s.buckets))
    ensures Measures(s.durations, s.buckets, xs)
  {
    hide TightSum, Measures, ValidHttp, ValidTokens;
    if s.durations.count < 2 {
      xs := FewHaveList(s.durations, s.buckets);
    } else {
      xs := TightHasList(s.durations, s.buckets);
    }
  }

  lemma MeasuresMeans(d: DurationSummary, b: DurationBuckets, xs: seq<U64>, n: U64)
    requires Measures(d, b, xs) && d.count + d.unobserved == n
    ensures Summarizes(d, xs, n) && |xs| <= n && forall x | x in xs :: x <= MAX_DURATION_NANOS
    ensures forall i | 0 <= i < BUCKETS :: Histogram(xs, i) == b[i]
  {
  }

  lemma SameBuckets(a: DurationBuckets, b: DurationBuckets)
    requires forall i | 0 <= i < BUCKETS :: a[i] == b[i]
    ensures a == b
  {
  }

  /** Usages, measurements and an accepted summary make a stream that folds to it. */
  lemma FactStreamFor(s: OperationalSummary, n: U64, xs: seq<U64>, us: seq<Usage>) returns (stream: seq<FactSample>)
    requires ValidSummary(s, n) && Measures(s.durations, s.buckets, xs) && |us| == n && AllValid(us) && FoldUsages(us) == Some(s.tokens)
    ensures |stream| == n && PlausibleFactStream(stream) && FoldSummary(stream) == Some(s)
    ensures forall i | 0 <= i < n :: stream[i].facts.usage == us[i]
  {
    hide Measures, Summarizes, ValidStatistics, ValidBuckets, AllValid, PlausibleFactStream, FoldStream, FoldBuckets, FoldCodes, FoldUsages,
         Tallies, Histogram, ValidHttp;
    stream := Zip(xs, s, us, n);
    MeasuresMeans(s.durations, s.buckets, xs, n);
    WitnessCarries(xs, s.spanStatus, n);
    WitnessPlausible(xs, s.spanStatus, n);
    SpecifiedFolds(Witness(xs, s.spanStatus, n), s.durations, s.spanStatus);
    BucketsAreHistogram(Witness(xs, s.spanStatus, n));
    SameBuckets(FoldBuckets(Witness(xs, s.spanStatus, n)).value, s.buckets);
    CodesFold(s.httpStatus, s.http429, n);
    ZipParts(xs, s, us, n);
    assert us[..n] == us;
    FoldSplits(stream);
    ZipPlausible(xs, s, us, n);
  }

  ghost predicate ProducedStream(stream: seq<FactSample>) {
    PlausibleFactStream(stream) && forall i | 0 <= i < |stream| :: ProducedUsage(stream[i].facts.usage)
  }

  /** Some n records, as the ingest envelope and the span reader fill them in, fold to the summary. */
  ghost predicate Producible(s: OperationalSummary, n: nat) {
    exists stream :: |stream| == n && ProducedStream(stream) && FoldSummary(stream) == Some(s)
  }

  /** Some n records that pass OperationalFacts.Validate, whatever stands beside the parts they call present, do. */
  ghost predicate Admissible(s: OperationalSummary, n: nat) {
    exists stream :: |stream| == n && PlausibleFactStream(stream) && FoldSummary(stream) == Some(s)
  }

  lemma {:induction false} UsagesAt(stream: seq<FactSample>)
    ensures forall i | 0 <= i < |stream| :: Usages(stream)[i] == stream[i].facts.usage
  {
    if stream != [] {
      UsagesAt(stream[..|stream| - 1]);
    }
  }

  lemma PlausibleUsages(stream: seq<FactSample>)
    requires PlausibleFactStream(stream)
    ensures AllValid(Usages(stream))
    ensures ProducedStream(stream) ==> AllProduced(Usages(stream))
  {
    UsagesAt(stream);
    forall i | 0 <= i < |stream| ensures ValidUsage(Usages(stream)[i]) {
      assert PlausibleFacts(stream[i]);
    }
  }

  lemma FoldedTokens(stream: seq<FactSample>, s: OperationalSummary)
    requires FoldSummary(stream) == Some(s)
    ensures FoldUsages(Usages(stream)) == Some(s.tokens)
  {
    hide FoldStream, FoldBuckets, FoldCodes, FoldUsages, FoldSummary;
    FoldSplits(stream);
  }

  lemma FoldedIsAdmitted(stream: seq<FactSample>, s: OperationalSummary)
    requires PlausibleFactStream(stream) && |stream| <= MAX_UINT64 && FoldSummary(stream) == Some(s)
    ensures ValidSummary(s, |stream|) && (s.durations.count < 2 || TightSum(s.durations, s.buckets)) && TokensAdmitted(s.tokens)
    ensures ProducedStream(stream) ==> TokensFitObserved(s.tokens)
  {
    hide TightSum, PlausibleFactStream, AllValid, AllProduced, FoldSummary, FoldUsages, ValidSummary, ProducedStream;
    ObservedIsValid(stream);
    FoldIsTight(stream);
    FoldedTokens(stream, s);
    PlausibleUsages(stream);
    UsagesAreSummed(Usages(stream));
    ValidSums(Usages(stream));
    if ProducedStream(stream) {
      ProducedSums(Usages(stream));
      var c := WholeReports(Usages(stream));
      ReportsBound(s.tokens.unsplit, c);
      ReportsBound(Max(s.tokens.input, s.tokens.output), s.tokens.observed - c);
    }
  }

  /** What the validator asks and what it leaves unasked. */
  ghost predicate Exact(s: OperationalSummary, n: nat, tokens: bool) {
    ValidSummary(s, n) && (s.durations.count < 2 || TightSum(s.durations, s.buckets)) && tokens
  }

  lemma ExactHasStream(s: OperationalSummary, n: U64)
    requires Exact(s, n, TokensFitObserved(s.tokens))
    ensures Producible(s, n)
  {
    hide TightSum, PlausibleFactStream, FoldSummary, ValidSummary, TokensFitObserved, Measures, FoldUsages, ProducedUsage, ValidUsage;
    var xs := ListFor(s, n);
    TokensAreValid(s, n);
    var us := UsagesFor(s.tokens, n);
    ProducedIsValid(us);
    var stream := FactStreamFor(s, n, xs, us);
    assert ProducedStream(stream);
  }

  lemma ProducedIsValid(us: seq<Usage>)
    requires AllProduced(us)
    ensures AllValid(us)
  {
  }

  lemma AdmittedHasStream(s: OperationalSummary, n: U64)
    requires Exact(s, n, TokensAdmitted(s.tokens))
    ensures Admissible(s, n)
  {
    hide TightSum, PlausibleFactStream, FoldSummary, ValidSummary, TokensAdmitted, Measures, FoldUsages, ValidUsage;
    var xs := ListFor(s, n);
    TokensAreValid(s, n);
    var us := AdmittedUsagesFor(s.tokens, n);
    var stream := FactStreamFor(s, n, xs, us);
  }

  /** Exactly which summaries of n observations ingest can have produced: those the validator accepts whose sum fits the
      bucket edges tightened to the extrema and whose tokens fit the observations that reported any. The validator asks
      neither of the last two. */
  lemma ProducibleIff(s: OperationalSummary, n: U64)
    ensures Producible(s, n) <==>
            && ValidSummary(s, n) && (s.durations.count < 2 || TightSum(s.durations, s.buckets)) && TokensFitObserved(s.tokens)
  {
    hide TightSum, PlausibleFactStream, FoldSummary, ValidSummary, TokensFitObserved, ProducedStream;
    if Producible(s, n) {
      var stream :| |stream| == n && ProducedStream(stream) && FoldSummary(stream) == Some(s);
      ProducedIsPlausible(stream);
      FoldedIsAdmitted(stream, s);
    }
    if Exact(s, n, TokensFitObserved(s.tokens)) {
      ExactHasStream(s, n);
    }
  }

  lemma ProducedIsPlausible(stream: seq<FactSample>)
    requires ProducedStream(stream)
    ensures PlausibleFactStream(stream)
  {
    hide PlausibleFactStream, ProducedUsage;
  }

  lemma TokensAreValid(s: OperationalSummary, n: nat)
    requires ValidSummary(s, n)
    ensures ValidTokens(s.tokens, n)
  {
  }

  /** And which ones records that only pass Validate can have produced: a part beside an absent flag is not bounded, so the
      tokens are constrained only where one observation reported any. */
  lemma AdmissibleIff(s: OperationalSummary, n: U64)
    ensures Admissible(s, n) <==>
            ValidSummary(s, n) && (s.durations.count < 2 || TightSum(s.durations, s.buckets)) && TokensAdmitted(s.tokens)
  {
    hide TightSum, PlausibleFactStream, FoldSummary, ValidSummary, TokensAdmitted;
    if Admissible(s, n) {
      var stream :| |stream| == n && PlausibleFactStream(stream) && FoldSummary(stream) == Some(s);
      FoldedIsAdmitted(stream, s);
    }
    if Exact(s, n, TokensAdmitted(s.tokens)) {
      AdmittedHasStream(s, n);
    }
  }

  // ---- Summaries in the gap -----------------------------------------------------------------------------------

  /** One observation with 2^40 input tokens. */
  const TOKEN_GAP := UnavailableOperational(1).(tokens := TokenCounts(0x100_0000_0000, 0, 0, 1, 0))

  lemma TokensReplaced(s: OperationalSummary, t: TokenCounts, n: nat)
    requires ValidSummary(s, n) && ValidTokens(t, n)
    ensures ValidSummary(s.(tokens := t), n)
  {
    hide ValidRestored, ValidBuckets, ValidHttp;
  }

  /** Every check passes, and no record the producers fill in says so. */
  lemma ValidatorAcceptsTokenGap()
    ensures ValidSummary(TOKEN_GAP, 1) && !Producible(TOKEN_GAP, 1)
  {
    hide Producible, ValidSummary, TightSum;
    UnavailableIsValid(1);
    TokensReplaced(UnavailableOperational(1), TOKEN_GAP.tokens, 1);
    ProducibleIff(TOKEN_GAP, 1);
    ReportsBound(0x100_0000_0000, 1);
  }
}
