/** platform/operational.go: duration statistics and span-status counts, their per-record fold, and the validator that
    refuses persisted values no stream of records could have produced. */
module Operational {
  import opened Bounded

  /** event.MaxDurationNanos: the largest duration one observation may report. */
  const MAX_DURATION_NANOS: int := 0x7FFF_FFFF_FFFF_FFFF

  datatype DurationSummary = DurationSummary(count: U64, unobserved: U64, sum: U64, min: U64, max: U64)

  datatype SpanStatusCounts = SpanStatusCounts(unavailable: U64, unset: U64, ok: U64, error: U64)

  datatype SpanStatus = StatusUnavailable | StatusUnset | StatusOK | StatusError | StatusUnrecognized

  /** What a record's duration text says: nothing, something no adapter writes, or a measurement in range. */
  datatype DurationField = Absent | Malformed | Nanos(nanos: U64)

  datatype FoldError = InvalidRecord | CounterOverflow

  const NO_DURATIONS := DurationSummary(0, 0, 0, 0, 0)
  const NO_STATUSES := SpanStatusCounts(0, 0, 0, 0)

  function ObserveDuration(s: DurationSummary, nanos: U64): Option<DurationSummary> {
    if s.count == MAX_UINT64 then None
    else if s.sum > MAX_UINT64 - nanos then None
    else if s.count == 0 then Some(DurationSummary(1, s.unobserved, nanos, nanos, nanos))
    else Some(DurationSummary(s.count + 1, s.unobserved, s.sum + nanos, Min(s.min, nanos), Max(s.max, nanos)))
  }

  function SkipDuration(s: DurationSummary): Option<DurationSummary> {
    if s.unobserved == MAX_UINT64 then None else Some(s.(unobserved := s.unobserved + 1))
  }

  function CountStatus(c: SpanStatusCounts, status: SpanStatus): Result<SpanStatusCounts, FoldError> {
    match status
    case StatusUnavailable => if c.unavailable == MAX_UINT64 then Err(CounterOverflow) else Ok(c.(unavailable := c.unavailable + 1))
    case StatusUnset => if c.unset == MAX_UINT64 then Err(CounterOverflow) else Ok(c.(unset := c.unset + 1))
    case StatusOK => if c.ok == MAX_UINT64 then Err(CounterOverflow) else Ok(c.(ok := c.ok + 1))
    case StatusError => if c.error == MAX_UINT64 then Err(CounterOverflow) else Ok(c.(error := c.error + 1))
    case StatusUnrecognized => Err(InvalidRecord)
  }

  function FoldDurationField(d: DurationSummary, duration: DurationField): Result<DurationSummary, FoldError> {
    match duration
    case Malformed => Err(InvalidRecord)
    case Absent => (match SkipDuration(d) case Some(n) => Ok(n) case None => Err(CounterOverflow))
    case Nanos(n) => (match ObserveDuration(d, n) case Some(s) => Ok(s) case None => Err(CounterOverflow))
  }

  /** Folds one record's duration and status in, or says why it cannot. */
  function ObserveOperational(d: DurationSummary, c: SpanStatusCounts, duration: DurationField, status: SpanStatus)
    : Result<(DurationSummary, SpanStatusCounts), FoldError>
  {
    match FoldDurationField(d, duration)
    case Err(e) => Err(e)
    case Ok(durations) =>
      match CountStatus(c, status)
      case Err(e) => Err(e)
      case Ok(statuses) => Ok((durations, statuses))
  }

  // ---- Streams ------------------------------------------------------------------------------------------------

  datatype Sample = Sample(duration: DurationField, status: SpanStatus)

  /** A sample an accepted record carries: a duration in range or none, and a known status. */
  predicate Plausible(s: Sample) {
    !s.duration.Malformed? && (s.duration.Nanos? ==> s.duration.nanos <= MAX_DURATION_NANOS) && !s.status.StatusUnrecognized?
  }

  ghost predicate PlausibleStream(stream: seq<Sample>) {
    forall i | 0 <= i < |stream| :: Plausible(stream[i])
  }

  /** Left fold of a whole stream, or None at the first record refused. */
  function FoldStream(stream: seq<Sample>): Option<(DurationSummary, SpanStatusCounts)> {
    if stream == [] then Some((NO_DURATIONS, NO_STATUSES))
    else
      match FoldStream(stream[..|stream| - 1])
      case None => None
      case Some(pair) =>
        var last := stream[|stream| - 1];
        match ObserveOperational(pair.0, pair.1, last.duration, last.status)
        case Ok(next) => Some(next)
        case Err(_) => None
  }

  /** The measured durations of a stream, in order. */
  function Measured(stream: seq<Sample>): seq<U64> {
    if stream == [] then []
    else
      var last := stream[|stream| - 1];
      Measured(stream[..|stream| - 1]) + (if last.duration.Nanos? then [last.duration.nanos] else [])
  }

  function StatusTally(stream: seq<Sample>, status: SpanStatus): nat {
    if stream == [] then 0
    else StatusTally(stream[..|stream| - 1], status) + (if stream[|stream| - 1].status == status then 1 else 0)
  }

  ghost predicate IsLowest(xs: seq<U64>, m: U64) {
    m in xs && forall x | x in xs :: m <= x
  }

  ghost predicate IsHighest(xs: seq<U64>, m: U64) {
    m in xs && forall x | x in xs :: x <= m
  }

  /** The plain specification of a duration summary: the count, the total and the true extrema of what was measured. */
  ghost predicate Summarizes(d: DurationSummary, measured: seq<U64>, records: nat) {
    && d.count == |measured| && d.count + d.unobserved == records && d.sum == Total(measured)
    && (if measured == [] then d.min == 0 && d.max == 0 else IsLowest(measured, d.min) && IsHighest(measured, d.max))
  }

  ghost predicate Tallies(c: SpanStatusCounts, stream: seq<Sample>) {
    && c.unavailable == StatusTally(stream, StatusUnavailable) && c.unset == StatusTally(stream, StatusUnset)
    && c.ok == StatusTally(stream, StatusOK) && c.error == StatusTally(stream, StatusError)
  }

  lemma {:induction false} TallyBound(stream: seq<Sample>, status: SpanStatus)
    ensures StatusTally(stream, status) <= |stream|
  {
    if stream != [] {
      TallyBound(stream[..|stream| - 1], status);
    }
  }

  lemma {:induction false} MeasuredBound(stream: seq<Sample>)
    ensures |Measured(stream)| <= |stream|
  {
    if stream != [] {
      MeasuredBound(stream[..|stream| - 1]);
    }
  }

  lemma SummarizesStep(d: DurationSummary, measured: seq<U64>, records: nat, field: DurationField)
    requires Summarizes(d, measured, records) && records < MAX_UINT64 && !field.Malformed?
    ensures var next := measured + (if field.Nanos? then [field.nanos] else []);
            && (FoldDurationField(d, field).Ok? <==> Total(next) <= MAX_UINT64)
            && (FoldDurationField(d, field).Ok? ==> Summarizes(FoldDurationField(d, field).value, next, records + 1))
  {
    if field.Nanos? {
      TotalAppend(measured, [field.nanos]);
      assert Total([field.nanos]) == field.nanos;
    } else {
      assert measured + [] == measured;
    }
  }

  /** Within uint64 many records, a plausible stream folds exactly when its measured total fits, and then to the plain
      specification. */
  lemma {:induction false} FoldStreamMeaning(stream: seq<Sample>)
    requires PlausibleStream(stream) && |stream| <= MAX_UINT64
    ensures FoldStream(stream).Some? <==> Total(Measured(stream)) <= MAX_UINT64
    ensures FoldStream(stream).Some? ==> Summarizes(FoldStream(stream).value.0, Measured(stream), |stream|)
    ensures FoldStream(stream).Some? ==> Tallies(FoldStream(stream).value.1, stream)
  {
    if stream != [] {
      var init, last := stream[..|stream| - 1], stream[|stream| - 1];
      assert Plausible(last);
      FoldStreamMeaning(init);
      TotalAppend(Measured(init), if last.duration.Nanos? then [last.duration.nanos] else []);
      TallyBound(init, last.status);
      if FoldStream(init).Some? {
        SummarizesStep(FoldStream(init).value.0, Measured(init), |init|, last.duration);
      }
    }
  }

  // ---- The restore-time validator -----------------------------------------------------------------------------

  /** The sharp bounds on a total of n >= 2 values whose extrema are lo and hi. */
  predicate SharpTotal(n: int, total: int, lo: int, hi: int) {
    hi + (n - 1) * lo <= total <= lo + (n - 1) * hi
  }

  predicate ValidStatistics(d: DurationSummary) {
    if d.count == 0 then d.sum == 0 && d.min == 0 && d.max == 0
    else && d.min <= d.max <= MAX_DURATION_NANOS
         && (if d.count == 1 then d.min == d.max == d.sum else SharpTotal(d.count, d.sum, d.min, d.max))
  }

  /** The validator's rules over unbounded integers. */
  predicate ValidRestored(d: DurationSummary, c: SpanStatusCounts, records: nat) {
    && d.count + d.unobserved == records
    && c.unavailable + c.unset + c.ok + c.error == records
    && ValidStatistics(d)
  }

  /** The guarded bound checks as written: a lower bound past uint64 cannot be met, an upper bound past it constrains
      nothing. */
  method CheckSharpTotal(d: DurationSummary) returns (ok: bool)
    requires d.count >= 2
    ensures ok <==> SharpTotal(d.count, d.sum, d.min, d.max)
  {
    var others: U64 := d.count - 1;
    var lower := AddMulNoOverflow(d.max, others, d.min);
    if lower.None? || d.sum < lower.value {
      return false;
    }
    var upper := AddMulNoOverflow(d.min, others, d.max);
    ok := !(upper.Some? && d.sum > upper.value);
  }

  method ValidateRestoredOperational(d: DurationSummary, c: SpanStatusCounts, records: U64) returns (ok: bool)
    ensures ok <==> ValidRestored(d, c, records)
  {
    DurationListTotal(d);
    var durationTotal := SumNoOverflow([d.count, d.unobserved]);
    if durationTotal.None? || durationTotal.value != records {
      return false;
    }
    StatusListTotal(c);
    var statusTotal := SumNoOverflow([c.unavailable, c.unset, c.ok, c.error]);
    if statusTotal.None? || statusTotal.value != records {
      return false;
    }
    if d.count == 0 {
      return d.sum == 0 && d.min == 0 && d.max == 0;
    }
    if d.min > d.max {
      return false;
    }
    if d.max > MAX_DURATION_NANOS {
      return false;
    }
    if d.count == 1 {
      return d.min == d.max && d.sum == d.min;
    }
    ok := CheckSharpTotal(d);
  }

  lemma TotalOfTwo(a: U64, b: U64)
    ensures Total([a, b]) == a + b
  {
    assert Total([b]) == b by {
      assert [b][1..] == [];
    }
    assert [a, b][1..] == [b];
  }

  lemma DurationListTotal(d: DurationSummary)
    ensures Total([d.count, d.unobserved]) == d.count + d.unobserved
  {
    TotalOfTwo(d.count, d.unobserved);
  }

  lemma StatusListTotal(c: SpanStatusCounts)
    ensures Total([c.unavailable, c.unset, c.ok, c.error]) == c.unavailable + c.unset + c.ok + c.error
  {
    assert [c.unavailable, c.unset, c.ok, c.error] == [c.unavailable, c.unset] + [c.ok, c.error];
    TotalAppend([c.unavailable, c.unset], [c.ok, c.error]);
    TotalOfTwo(c.unavailable, c.unset);
    TotalOfTwo(c.ok, c.error);
  }

  // ---- Soundness: what a stream folds to is accepted ----------------------------------------------------------

  lemma OneMoreTimes(n: nat, v: int)
    ensures (n + 1) * v == v + n * v
  {
  }

  lemma {:induction false} TotalWithin(xs: seq<U64>, lo: U64, hi: U64)
    requires forall x | x in xs :: lo <= x <= hi
    ensures |xs| * lo <= Total(xs) <= |xs| * hi
  {
    if xs != [] {
      var first, rest := xs[0], xs[1..];
      assert first in xs;
      forall x | x in rest ensures x in xs {}
      TotalWithin(rest, lo, hi);
      OneMoreTimes(|rest|, lo);
      OneMoreTimes(|rest|, hi);
    }
  }

  lemma {:induction false} TotalRemove(xs: seq<U64>, i: nat)
    requires i < |xs|
    ensures Total(xs) == xs[i] + Total(xs[..i] + xs[i + 1..])
  {
    assert xs == xs[..i] + ([xs[i]] + xs[i + 1..]);
    TotalAppend(xs[..i], [xs[i]] + xs[i + 1..]);
    assert ([xs[i]] + xs[i + 1..])[1..] == xs[i + 1..];
    TotalAppend(xs[..i], xs[i + 1..]);
  }

  lemma OthersWithin(xs: seq<U64>, i: nat, lo: U64, hi: U64)
    requires i < |xs| && IsLowest(xs, lo) && IsHighest(xs, hi)
    ensures (|xs| - 1) * lo <= Total(xs[..i] + xs[i + 1..]) <= (|xs| - 1) * hi
  {
    var others := xs[..i] + xs[i + 1..];
    forall x | x in others ensures lo <= x <= hi {
      assert x in xs;
    }
    TotalWithin(others, lo, hi);
  }

  /** Both extrema occur, so the other n-1 values lie between them. */
  lemma SharpBounds(xs: seq<U64>, lo: U64, hi: U64)
    requires |xs| >= 2 && IsLowest(xs, lo) && IsHighest(xs, hi)
    ensures SharpTotal(|xs|, Total(xs), lo, hi)
  {
    var h :| 0 <= h < |xs| && xs[h] == hi;
    TotalRemove(xs, h);
    OthersWithin(xs, h, lo, hi);
    var l :| 0 <= l < |xs| && xs[l] == lo;
    TotalRemove(xs, l);
    OthersWithin(xs, l, lo, hi);
  }

  lemma {:induction false} TalliesPartition(stream: seq<Sample>)
    requires PlausibleStream(stream)
    ensures StatusTally(stream, StatusUnavailable) + StatusTally(stream, StatusUnset)
            + StatusTally(stream, StatusOK) + StatusTally(stream, StatusError) == |stream|
  {
    if stream != [] {
      assert Plausible(stream[|stream| - 1]);
      TalliesPartition(stream[..|stream| - 1]);
    }
  }

  lemma {:induction false} MeasuredInRange(stream: seq<Sample>)
    requires PlausibleStream(stream)
    ensures forall x | x in Measured(stream) :: x <= MAX_DURATION_NANOS
  {
    if stream != [] {
      assert Plausible(stream[|stream| - 1]);
      MeasuredInRange(stream[..|stream| - 1]);
    }
  }

  lemma FoldedIsValid(stream: seq<Sample>)
    requires PlausibleStream(stream) && |stream| <= MAX_UINT64 && FoldStream(stream).Some?
    ensures ValidRestored(FoldStream(stream).value.0, FoldStream(stream).value.1, |stream|)
  {
    FoldStreamMeaning(stream);
    SpecifiedIsValid(FoldStream(stream).value.0, FoldStream(stream).value.1, stream);
  }

  lemma SpecifiedIsValid(d: DurationSummary, c: SpanStatusCounts, stream: seq<Sample>)
    requires PlausibleStream(stream) && Summarizes(d, Measured(stream), |stream|) && Tallies(c, stream)
    ensures ValidRestored(d, c, |stream|)
  {
    TalliesPartition(stream);
    MeasuredInRange(stream);
    MeasuredStatisticsValid(d, Measured(stream), |stream|);
  }

  lemma MeasuredStatisticsValid(d: DurationSummary, xs: seq<U64>, records: nat)
    requires Summarizes(d, xs, records) && forall x | x in xs :: x <= MAX_DURATION_NANOS
    ensures ValidStatistics(d)
  {
    if |xs| >= 2 {
      SharpBounds(xs, d.min, d.max);
    } else if |xs| == 1 {
      var x := xs[0];
      assert xs == [x];
      assert d.min in [x] && d.max in [x];
      assert Total([x]) == x by {
        assert [x][1..] == [];
      }
    }
  }

  // ---- Completeness: what is accepted, some stream folds to ---------------------------------------------------

  /** One of k values can be set aside so that the others still fit their bounds. */
  lemma SplitOne(k: nat, lo: U64, hi: U64, total: nat) returns (v: U64)
    requires k > 0 && lo <= hi && k * lo <= total <= k * hi
    ensures lo <= v <= hi && v <= total && (k - 1) * lo <= total - v <= (k - 1) * hi
  {
    var a, b := (k - 1) * lo, (k - 1) * hi;
    assert k * lo == lo + a && k * hi == hi + b;
    assert 0 <= a <= b;
    v := if total - a <= hi then total - a else hi;
  }

  /** k values between lo and hi with a given total, filled greedily from the top. */
  lemma {:induction false} FillTotal(k: nat, lo: U64, hi: U64, total: nat) returns (xs: seq<U64>)
    requires lo <= hi && k * lo <= total <= k * hi
    ensures |xs| == k && Total(xs) == total && forall i | 0 <= i < k :: lo <= xs[i] <= hi
  {
    if k == 0 {
      xs := [];
    } else {
      var v := SplitOne(k, lo, hi, total);
      var rest := FillTotal(k - 1, lo, hi, total - v);
      xs := [v] + rest;
      assert xs[1..] == rest;
    }
  }

  lemma SharpTotalLeaves(n: int, total: int, lo: int, hi: int)
    requires SharpTotal(n, total, lo, hi)
    ensures (n - 2) * lo <= total - lo - hi <= (n - 2) * hi
  {
    assert (n - 1) * lo == lo + (n - 2) * lo;
    assert (n - 1) * hi == hi + (n - 2) * hi;
  }

  lemma WithExtrema(lo: U64, hi: U64, rest: seq<U64>)
    requires lo <= hi && forall i | 0 <= i < |rest| :: lo <= rest[i] <= hi
    ensures Total([lo, hi] + rest) == lo + hi + Total(rest)
    ensures IsLowest([lo, hi] + rest, lo) && IsHighest([lo, hi] + rest, hi)
  {
    TotalAppend([lo, hi], rest);
    TotalOfTwo(lo, hi);
    assert ([lo, hi] + rest)[0] == lo && ([lo, hi] + rest)[1] == hi;
  }

  lemma ManyMeasurements(n: nat, total: nat, lo: U64, hi: U64) returns (xs: seq<U64>)
    requires n >= 2 && lo <= hi && SharpTotal(n, total, lo, hi)
    ensures |xs| == n && Total(xs) == total && IsLowest(xs, lo) && IsHighest(xs, hi)
  {
    hide SharpTotal, IsLowest, IsHighest, Total;
    SharpTotalLeaves(n, total, lo, hi);
    SharpTotalRoom(n, total, lo, hi);
    var rest := FillTotal(n - 2, lo, hi, total - lo - hi);
    WithExtrema(lo, hi, rest);
    xs := [lo, hi] + rest;
  }

  lemma SharpTotalRoom(n: nat, total: nat, lo: nat, hi: nat)
    requires n >= 2 && SharpTotal(n, total, lo, hi)
    ensures lo + hi <= total
  {
    assert (n - 1) * lo == lo + (n - 2) * lo;
    assert 0 <= (n - 2) * lo;
  }

  /** Measurements with the given count, total and extrema. */
  lemma MeasurementsFor(d: DurationSummary) returns (xs: seq<U64>)
    requires d.count > 0 && d.min <= d.max
    requires if d.count == 1 then d.min == d.max == d.sum else SharpTotal(d.count, d.sum, d.min, d.max)
    ensures |xs| == d.count && Total(xs) == d.sum && IsLowest(xs, d.min) && IsHighest(xs, d.max)
  {
    hide SharpTotal;
    if d.count == 1 {
      xs := [d.sum];
    } else {
      xs := ManyMeasurements(d.count, d.sum, d.min, d.max);
    }
  }

  function StatusAt(c: SpanStatusCounts, i: nat): SpanStatus {
    if i < c.unavailable then StatusUnavailable
    else if i < c.unavailable + c.unset then StatusUnset
    else if i < c.unavailable + c.unset + c.ok then StatusOK
    else StatusError
  }

  function DurationAt(xs: seq<U64>, i: nat): DurationField {
    if i < |xs| then Nanos(xs[i]) else Absent
  }

  /** The first n records of a stream with the given measurements and statuses. */
  function Witness(xs: seq<U64>, c: SpanStatusCounts, n: nat): (s: seq<Sample>)
    ensures |s| == n
  {
    if n == 0 then [] else Witness(xs, c, n - 1) + [Sample(DurationAt(xs, n - 1), StatusAt(c, n - 1))]
  }

  lemma MeasuredOneMore(stream: seq<Sample>, x: Sample)
    ensures Measured(stream + [x]) == Measured(stream) + (if x.duration.Nanos? then [x.duration.nanos] else [])
  {
    assert (stream + [x])[..|stream|] == stream;
  }

  lemma PrefixOneMore(xs: seq<U64>, n: nat)
    ensures (if n + 1 <= |xs| then xs[..n + 1] else xs)
            == (if n <= |xs| then xs[..n] else xs) + (if n < |xs| then [xs[n]] else [])
  {
  }

  lemma {:induction false} WitnessMeasured(xs: seq<U64>, c: SpanStatusCounts, n: nat)
    ensures Measured(Witness(xs, c, n)) == if n <= |xs| then xs[..n] else xs
  {
    hide Measured, StatusAt;
    if n > 0 {
      WitnessMeasured(xs, c, n - 1);
      MeasuredOneMore(Witness(xs, c, n - 1), Sample(DurationAt(xs, n - 1), StatusAt(c, n - 1)));
      PrefixOneMore(xs, n - 1);
    } else {
      NothingMeasured();
    }
  }

  lemma NothingMeasured()
    ensures Measured([]) == []
  {
  }

  function Clamp(n: int, size: nat): nat {
    if n < 0 then 0 else if n > size then size else n
  }

  lemma {:induction false} WitnessTallies(xs: seq<U64>, c: SpanStatusCounts, n: nat)
    ensures StatusTally(Witness(xs, c, n), StatusUnavailable) == Clamp(n, c.unavailable)
    ensures StatusTally(Witness(xs, c, n), StatusUnset) == Clamp(n - c.unavailable, c.unset)
    ensures StatusTally(Witness(xs, c, n), StatusOK) == Clamp(n - c.unavailable - c.unset, c.ok)
    ensures StatusTally(Witness(xs, c, n), StatusError) == if n < c.unavailable + c.unset + c.ok then 0 else n - c.unavailable - c.unset - c.ok
  {
    if n > 0 {
      WitnessTallies(xs, c, n - 1);
      assert Witness(xs, c, n)[..n - 1] == Witness(xs, c, n - 1);
    }
  }

  lemma {:induction false} WitnessPlausible(xs: seq<U64>, c: SpanStatusCounts, n: nat)
    requires forall x | x in xs :: x <= MAX_DURATION_NANOS
    ensures PlausibleStream(Witness(xs, c, n))
  {
    if n > 0 {
      WitnessPlausible(xs, c, n - 1);
      assert n <= |xs| ==> xs[n - 1] in xs;
    }
  }

  lemma SummaryUnique(a: DurationSummary, b: DurationSummary, xs: seq<U64>, n: nat)
    requires Summarizes(a, xs, n) && Summarizes(b, xs, n)
    ensures a == b
  {
  }

  lemma MeasurementsOrNone(d: DurationSummary, c: SpanStatusCounts, records: U64) returns (xs: seq<U64>)
    requires ValidRestored(d, c, records)
    ensures Summarizes(d, xs, records) && |xs| <= records && forall x | x in xs :: x <= MAX_DURATION_NANOS
  {
    xs := [];
    if d.count > 0 {
      xs := MeasurementsFor(d);
    }
  }

  lemma WitnessCarries(xs: seq<U64>, c: SpanStatusCounts, records: U64)
    requires |xs| <= records && c.unavailable + c.unset + c.ok + c.error == records
    ensures Measured(Witness(xs, c, records)) == xs && Tallies(c, Witness(xs, c, records))
  {
    WitnessMeasured(xs, c, records);
    assert records == |xs| ==> xs[..records] == xs;
    WitnessTallies(xs, c, records);
  }

  lemma SpecifiedFolds(stream: seq<Sample>, d: DurationSummary, c: SpanStatusCounts)
    requires PlausibleStream(stream) && |stream| <= MAX_UINT64
    requires Summarizes(d, Measured(stream), |stream|) && Tallies(c, stream)
    ensures FoldStream(stream) == Some((d, c))
  {
    FoldStreamMeaning(stream);
    SummaryUnique(d, FoldStream(stream).value.0, Measured(stream), |stream|);
  }

  lemma WitnessFor(d: DurationSummary, c: SpanStatusCounts, records: U64) returns (stream: seq<Sample>)
    requires ValidRestored(d, c, records)
    ensures PlausibleStream(stream) && |stream| == records && FoldStream(stream) == Some((d, c))
  {
    var xs := MeasurementsOrNone(d, c, records);
    stream := Witness(xs, c, records);
    WitnessCarries(xs, c, records);
    WitnessPlausible(xs, c, records);
    SpecifiedFolds(stream, d, c);
  }

  ghost predicate Reachable(d: DurationSummary, c: SpanStatusCounts, records: nat) {
    exists stream :: PlausibleStream(stream) && |stream| == records && FoldStream(stream) == Some((d, c))
  }

  /** The validator is exact: it accepts a pair of summaries for n records if and only if some stream of n records
      within the per-observation maximum folds to it without overflow. */
  lemma RestoredValidatorExact(d: DurationSummary, c: SpanStatusCounts, records: U64)
    ensures ValidRestored(d, c, records) <==> Reachable(d, c, records)
  {
    if ValidRestored(d, c, records) {
      var stream := WitnessFor(d, c, records);
    }
    if Reachable(d, c, records) {
      var stream :| PlausibleStream(stream) && |stream| == records && FoldStream(stream) == Some((d, c));
      FoldedIsValid(stream);
    }
  }

  // ---- Adding summaries ---------------------------------------------------------------------------------------

  /** The duration part of OperationalSummary.Add: a side with no measurement contributes no extremum. */
  function AddDurations(s: DurationSummary, o: DurationSummary): Option<DurationSummary> {
    if s.count + o.count > MAX_UINT64 || s.unobserved + o.unobserved > MAX_UINT64 || s.sum + o.sum > MAX_UINT64 then None
    else
      var lo: U64 := if s.count == 0 then o.min else if o.count == 0 then s.min else Min(s.min, o.min);
      var hi: U64 := if s.count == 0 then o.max else if o.count == 0 then s.max else Max(s.max, o.max);
      Some(DurationSummary(s.count + o.count, s.unobserved + o.unobserved, s.sum + o.sum, lo, hi))
  }

  function AddStatuses(s: SpanStatusCounts, o: SpanStatusCounts): Option<SpanStatusCounts> {
    if s.unavailable + o.unavailable > MAX_UINT64 || s.unset + o.unset > MAX_UINT64
       || s.ok + o.ok > MAX_UINT64 || s.error + o.error > MAX_UINT64 then None
    else Some(SpanStatusCounts(s.unavailable + o.unavailable, s.unset + o.unset, s.ok + o.ok, s.error + o.error))
  }

  lemma {:induction false} MeasuredConcat(a: seq<Sample>, b: seq<Sample>)
    ensures Measured(a + b) == Measured(a) + Measured(b)
  {
    if b == [] {
      assert a + b == a;
    } else {
      assert (a + b)[..|a + b| - 1] == a + b[..|b| - 1];
      MeasuredConcat(a, b[..|b| - 1]);
    }
  }

  lemma {:induction false} TallyConcat(a: seq<Sample>, b: seq<Sample>, status: SpanStatus)
    ensures StatusTally(a + b, status) == StatusTally(a, status) + StatusTally(b, status)
  {
    if b == [] {
      assert a + b == a;
    } else {
      assert (a + b)[..|a + b| - 1] == a + b[..|b| - 1];
      TallyConcat(a, b[..|b| - 1], status);
    }
  }

  lemma SummarizesConcat(a: DurationSummary, b: DurationSummary, sum: DurationSummary, xs: seq<U64>, ys: seq<U64>, m: nat, n: nat)
    requires Summarizes(a, xs, m) && Summarizes(b, ys, n) && AddDurations(a, b) == Some(sum)
    ensures Summarizes(sum, xs + ys, m + n)
  {
    TotalAppend(xs, ys);
    assert xs == [] ==> xs + ys == ys;
    assert ys == [] ==> xs + ys == xs;
    forall x ensures x in xs + ys <==> x in xs || x in ys {}
  }

  lemma TalliesConcat(a: seq<Sample>, b: seq<Sample>, c: SpanStatusCounts, e: SpanStatusCounts, f: SpanStatusCounts)
    requires PlausibleStream(a) && PlausibleStream(b) && |a| + |b| <= MAX_UINT64
    requires Tallies(c, a) && Tallies(e, b)
    ensures AddStatuses(c, e).Some?
    ensures Tallies(f, a + b) ==> f == AddStatuses(c, e).value
  {
    TalliesPartition(a);
    TalliesPartition(b);
    TallyConcat(a, b, StatusUnavailable);
    TallyConcat(a, b, StatusUnset);
    TallyConcat(a, b, StatusOK);
    TallyConcat(a, b, StatusError);
  }

  /** Adding two folded summaries is folding the concatenated streams, overflow included. */
  lemma AddIsConcatenation(a: seq<Sample>, b: seq<Sample>)
    requires PlausibleStream(a) && PlausibleStream(b) && |a| + |b| <= MAX_UINT64
    requires FoldStream(a).Some? && FoldStream(b).Some?
    ensures AddStatuses(FoldStream(a).value.1, FoldStream(b).value.1).Some?
    ensures FoldStream(a + b).Some? <==> AddDurations(FoldStream(a).value.0, FoldStream(b).value.0).Some?
    ensures FoldStream(a + b).Some? ==>
              && FoldStream(a + b).value.0 == AddDurations(FoldStream(a).value.0, FoldStream(b).value.0).value
              && FoldStream(a + b).value.1 == AddStatuses(FoldStream(a).value.1, FoldStream(b).value.1).value
  {
    var x, y := FoldStream(a).value, FoldStream(b).value;
    assert PlausibleStream(a + b);
    FoldStreamMeaning(a);
    FoldStreamMeaning(b);
    FoldStreamMeaning(a + b);
    MeasuredConcat(a, b);
    TotalAppend(Measured(a), Measured(b));
    if FoldStream(a + b).Some? {
      var z := FoldStream(a + b).value;
      TalliesConcat(a, b, x.1, y.1, z.1);
      SummarizesConcat(x.0, y.0, AddDurations(x.0, y.0).value, Measured(a), Measured(b), |a|, |b|);
      SummaryUnique(z.0, AddDurations(x.0, y.0).value, Measured(a + b), |a| + |b|);
    } else {
      TalliesConcat(a, b, x.1, y.1, x.1);
    }
  }

  /** Hence a sum of two valid pairs that does not overflow is itself valid. */
  lemma AddKeepsRestoredValid(d: DurationSummary, c: SpanStatusCounts, m: U64, e: DurationSummary, f: SpanStatusCounts, n: U64)
    requires ValidRestored(d, c, m) && ValidRestored(e, f, n) && m + n <= MAX_UINT64
    requires AddDurations(d, e).Some? && AddStatuses(c, f).Some?
    ensures ValidRestored(AddDurations(d, e).value, AddStatuses(c, f).value, m + n)
  {
    var a := WitnessFor(d, c, m);
    var b := WitnessFor(e, f, n);
    assert PlausibleStream(a + b);
    AddIsConcatenation(a, b);
    FoldedIsValid(a + b);
  }
}
