/** How far platform/behavior_operational.go's bucketed validator is from exact: which histograms, extrema and sums some
    list of durations has, and a summary the validator accepts that no list has. */
module BucketExactness {
  import opened Bounded
  import opened Operational
  import F = Fidelity
  import opened BehaviorOperational

  /** How many of the durations fall into a bucket. */
  function Histogram(xs: seq<U64>, i: nat): nat {
    if xs == [] then 0 else Histogram(xs[..|xs| - 1], i) + (if DurationBucket(xs[|xs| - 1]) == i then 1 else 0)
  }

  ghost predicate InRange(xs: seq<U64>) {
    forall k | 0 <= k < |xs| :: xs[k] <= MAX_DURATION_NANOS
  }

  ghost predicate HasHistogram(b: DurationBuckets, xs: seq<U64>) {
    forall i | 0 <= i < BUCKETS :: Histogram(xs, i) == b[i]
  }

  /** The summary's statistics and histogram are those of the list. */
  ghost predicate Measures(d: DurationSummary, b: DurationBuckets, xs: seq<U64>) {
    && InRange(xs) && HasHistogram(b, xs)
    && d.count == |xs| && d.sum == Total(xs)
    && (if xs == [] then d.min == 0 && d.max == 0 else IsLowest(xs, d.min) && IsHighest(xs, d.max))
  }

  ghost predicate Realizable(d: DurationSummary, b: DurationBuckets) {
    exists xs :: Measures(d, b, xs)
  }

  // ---- The tight bounds ---------------------------------------------------------------------------------------

  /** The smallest and largest a duration in a bucket can be between the extrema. */
  function Lowest(d: DurationSummary, i: nat): nat {
    if BucketLow(i) <= d.min then d.min else BucketLow(i)
  }

  function Highest(d: DurationSummary, i: nat): nat {
    if BucketHigh(i) <= d.max then BucketHigh(i) else d.max
  }

  /** The durations of a bucket that are left once one minimum and one maximum are set aside. */
  function Others(d: DurationSummary, b: DurationBuckets, i: nat): int
    requires i < BUCKETS
  {
    b[i] as int - (if i == DurationBucket(d.min) then 1 else 0) - (if i == DurationBucket(d.max) then 1 else 0)
  }

  function LeastOthers(d: DurationSummary, b: DurationBuckets, k: nat): int
    requires k <= BUCKETS
  {
    if k == 0 then 0 else LeastOthers(d, b, k - 1) + Others(d, b, k - 1) * Lowest(d, k - 1)
  }

  function MostOthers(d: DurationSummary, b: DurationBuckets, k: nat): int
    requires k <= BUCKETS
  {
    if k == 0 then 0 else MostOthers(d, b, k - 1) + Others(d, b, k - 1) * Highest(d, k - 1)
  }

  /** The sum fits with one minimum, one maximum and everything else anywhere its bucket and the extrema allow. */
  ghost predicate TightSum(d: DurationSummary, b: DurationBuckets) {
    d.min + d.max + LeastOthers(d, b, BUCKETS) <= d.sum <= d.min + d.max + MostOthers(d, b, BUCKETS)
  }

  /** What the validator checks of a measured summary's statistics and buckets. */
  ghost predicate Accepted(d: DurationSummary, b: DurationBuckets) {
    ValidStatistics(d) && ValidBuckets(b, d)
  }

  // ---- Lists --------------------------------------------------------------------------------------------------

  lemma {:induction false} HistogramConcat(xs: seq<U64>, ys: seq<U64>, i: nat)
    ensures Histogram(xs + ys, i) == Histogram(xs, i) + Histogram(ys, i)
  {
    if ys == [] {
      assert xs + ys == xs;
    } else {
      assert (xs + ys)[..|xs + ys| - 1] == xs + ys[..|ys| - 1];
      HistogramConcat(xs, ys[..|ys| - 1], i);
    }
  }

  lemma HistogramOne(x: U64, i: nat)
    ensures Histogram([x], i) == if DurationBucket(x) == i then 1 else 0
  {
    assert [x][..0] == [];
  }

  lemma TotalSnoc(xs: seq<U64>, x: U64)
    ensures Total(xs + [x]) == Total(xs) + x
  {
    TotalAppend(xs, [x]);
    assert [x][1..] == [];
  }

  /** Products of what one list adds to each bucket. */
  function Weighed(h: seq<nat>, w: seq<nat>, k: nat): nat
    requires k <= |h| && k <= |w|
  {
    if k == 0 then 0 else Weighed(h, w, k - 1) + h[k - 1] * w[k - 1]
  }

  function Counts(xs: seq<U64>): (h: seq<nat>)
    ensures |h| == BUCKETS && forall i | 0 <= i < BUCKETS :: h[i] == Histogram(xs, i)
  {
    seq(BUCKETS, (i: nat) => Histogram(xs, i))
  }

  lemma {:induction false} WeighedAddsOne(g: seq<nat>, h: seq<nat>, w: seq<nat>, j: nat, k: nat)
    requires |g| == |h| == |w| == BUCKETS && j < BUCKETS && k <= BUCKETS
    requires forall i | 0 <= i < BUCKETS :: h[i] == g[i] + (if i == j then 1 else 0)
    ensures Weighed(h, w, k) == Weighed(g, w, k) + (if j < k then w[j] else 0)
  {
    if k > 0 {
      WeighedAddsOne(g, h, w, j, k - 1);
      assert h[k - 1] * w[k - 1] == g[k - 1] * w[k - 1] + (if k - 1 == j then w[j] else 0);
    }
  }

  lemma {:induction false} WeighedNothing(h: seq<nat>, w: seq<nat>, k: nat)
    requires |h| == |w| == BUCKETS && k <= BUCKETS && forall i | 0 <= i < BUCKETS :: h[i] == 0
    ensures Weighed(h, w, k) == 0
  {
    if k > 0 {
      WeighedNothing(h, w, k - 1);
    }
  }

  function LowEdges(d: DurationSummary): (w: seq<nat>)
    ensures |w| == BUCKETS && forall i | 0 <= i < BUCKETS :: w[i] == Lowest(d, i)
  {
    seq(BUCKETS, (i: nat) => Lowest(d, i))
  }

  function HighEdges(d: DurationSummary): (w: seq<nat>)
    ensures |w| == BUCKETS && forall i | 0 <= i < BUCKETS :: w[i] == Highest(d, i)
  {
    seq(BUCKETS, (i: nat) => Highest(d, i))
  }

  ghost predicate Between(xs: seq<U64>, lo: nat, hi: nat) {
    forall k | 0 <= k < |xs| :: lo <= xs[k] <= hi
  }

  lemma OneBetween(d: DurationSummary, x: U64)
    requires x <= MAX_DURATION_NANOS && d.min <= x <= d.max
    ensures DurationBucket(x) < BUCKETS
    ensures Lowest(d, DurationBucket(x)) <= x <= Highest(d, DurationBucket(x))
  {
    BucketHolds(x);
  }

  /** Every list between the extrema totals between its histogram's tightened edges. */
  lemma {:induction false} TotalBetweenEdges(d: DurationSummary, xs: seq<U64>)
    requires InRange(xs) && Between(xs, d.min, d.max)
    ensures Weighed(Counts(xs), LowEdges(d), BUCKETS) <= Total(xs) <= Weighed(Counts(xs), HighEdges(d), BUCKETS)
  {
    if xs == [] {
      WeighedNothing(Counts(xs), LowEdges(d), BUCKETS);
      WeighedNothing(Counts(xs), HighEdges(d), BUCKETS);
    } else {
      var init, last := xs[..|xs| - 1], xs[|xs| - 1];
      assert xs == init + [last];
      TotalBetweenEdges(d, init);
      TotalSnoc(init, last);
      OneBetween(d, last);
      WeighedAddsOne(Counts(init), Counts(xs), LowEdges(d), DurationBucket(last), BUCKETS);
      WeighedAddsOne(Counts(init), Counts(xs), HighEdges(d), DurationBucket(last), BUCKETS);
    }
  }

  lemma {:induction false} OthersWeighed(d: DurationSummary, b: DurationBuckets, h: seq<nat>, k: nat)
    requires |h| == BUCKETS && k <= BUCKETS && forall i | 0 <= i < BUCKETS :: h[i] == Others(d, b, i)
    ensures Weighed(h, LowEdges(d), k) == LeastOthers(d, b, k) && Weighed(h, HighEdges(d), k) == MostOthers(d, b, k)
  {
    if k > 0 {
      OthersWeighed(d, b, h, k - 1);
    }
  }

  // ---- What a list has is tight -------------------------------------------------------------------------------

  /** Two different positions hold the minimum and the maximum. */
  lemma ExtremaPositions(xs: seq<U64>, lo: U64, hi: U64) returns (l: nat, h: nat)
    requires |xs| >= 2 && IsLowest(xs, lo) && IsHighest(xs, hi)
    ensures l < |xs| && h < |xs| && l != h && xs[l] == lo && xs[h] == hi
  {
    l :| 0 <= l < |xs| && xs[l] == lo;
    h :| 0 <= h < |xs| && xs[h] == hi;
    if l == h {
      h := if l == 0 then 1 else 0;
      assert xs[h] in xs;
    }
  }

  lemma WithoutOne(xs: seq<U64>, i: nat) returns (rest: seq<U64>)
    requires i < |xs|
    ensures rest == xs[..i] + xs[i + 1..] && Total(xs) == xs[i] + Total(rest)
    ensures forall j :: Histogram(xs, j) == Histogram(rest, j) + (if DurationBucket(xs[i]) == j then 1 else 0)
  {
    rest := xs[..i] + xs[i + 1..];
    TotalRemove(xs, i);
    forall j ensures Histogram(xs, j) == Histogram(rest, j) + (if DurationBucket(xs[i]) == j then 1 else 0) {
      assert xs == xs[..i] + [xs[i]] + xs[i + 1..];
      HistogramConcat(xs[..i] + [xs[i]], xs[i + 1..], j);
      HistogramConcat(xs[..i], [xs[i]], j);
      HistogramConcat(xs[..i], xs[i + 1..], j);
      HistogramOne(xs[i], j);
    }
  }

  /** The list without one minimum and one maximum. */
  lemma WithoutExtrema(d: DurationSummary, xs: seq<U64>) returns (rest: seq<U64>)
    requires |xs| >= 2 && InRange(xs) && IsLowest(xs, d.min) && IsHighest(xs, d.max)
    ensures InRange(rest) && Between(rest, d.min, d.max) && Total(xs) == d.min + d.max + Total(rest)
    ensures forall j :: Histogram(xs, j) == Histogram(rest, j) + (if DurationBucket(d.min) == j then 1 else 0)
                                            + (if DurationBucket(d.max) == j then 1 else 0)
  {
    var l, h := ExtremaPositions(xs, d.min, d.max);
    var mid := WithoutOne(xs, h);
    var m := if l < h then l else l - 1;
    assert mid[m] == d.min;
    rest := WithoutOne(mid, m);
    forall k | 0 <= k < |rest| ensures d.min <= rest[k] <= d.max && rest[k] <= MAX_DURATION_NANOS {
      assert rest[k] in mid;
      assert forall x | x in mid :: x in xs;
    }
  }

  lemma MeasuredIsTight(d: DurationSummary, b: DurationBuckets, xs: seq<U64>)
    requires Measures(d, b, xs) && d.count >= 2
    ensures TightSum(d, b) && forall i | 0 <= i < BUCKETS :: Others(d, b, i) >= 0
  {
    var rest := WithoutExtrema(d, xs);
    forall i | 0 <= i < BUCKETS ensures Counts(rest)[i] == Others(d, b, i) {
      assert Histogram(xs, i) == b[i];
    }
    OthersWeighed(d, b, Counts(rest), BUCKETS);
    TotalBetweenEdges(d, rest);
  }

  // ---- What is tight, a list has ------------------------------------------------------------------------------

  lemma BucketReachesExtrema(d: DurationSummary, i: nat)
    requires d.min <= d.max <= MAX_DURATION_NANOS && DurationBucket(d.min) <= i <= DurationBucket(d.max)
    ensures Lowest(d, i) <= Highest(d, i)
  {
    BucketHolds(d.min);
    BucketHolds(d.max);
    if DurationBucket(d.min) < i {
      EdgesIncrease(DurationBucket(d.min), i);
    }
    if i < DurationBucket(d.max) {
      EdgesIncrease(i, DurationBucket(d.max));
    }
  }

  /** Every bucket's remaining durations have room. */
  ghost predicate RoomFor(d: DurationSummary, b: DurationBuckets) {
    forall i | 0 <= i < BUCKETS :: Others(d, b, i) >= 0 && (Others(d, b, i) > 0 ==> Lowest(d, i) <= Highest(d, i))
  }

  lemma OthersOrdered(d: DurationSummary, b: DurationBuckets, i: nat)
    requires i < BUCKETS && RoomFor(d, b)
    ensures Others(d, b, i) * Lowest(d, i) <= Others(d, b, i) * Highest(d, i)
  {
    if Others(d, b, i) > 0 {
      ScaleOrdered(Others(d, b, i), Lowest(d, i), Highest(d, i));
    } else {
      assert Others(d, b, i) == 0;
    }
  }

  lemma ScaleOrdered(n: nat, lo: nat, hi: nat)
    requires lo <= hi
    ensures n * lo <= n * hi
  {
  }

  lemma {:induction false} LeastBelowMost(d: DurationSummary, b: DurationBuckets, k: nat)
    requires k <= BUCKETS && RoomFor(d, b)
    ensures LeastOthers(d, b, k) <= MostOthers(d, b, k)
  {
    if k > 0 {
      LeastBelowMost(d, b, k - 1);
      OthersOrdered(d, b, k - 1);
    }
  }

  lemma {:induction false} AllInBucket(xs: seq<U64>, i: nat, j: nat)
    requires i < BUCKETS && InRange(xs) && forall k | 0 <= k < |xs| :: BucketLow(i) <= xs[k] <= BucketHigh(i)
    ensures Histogram(xs, j) == if i == j then |xs| else 0
  {
    if xs != [] {
      AllInBucket(xs[..|xs| - 1], i, j);
      BucketUnique(xs[|xs| - 1], i);
    }
  }

  /** One bucket's remaining durations with a given total. */
  lemma FillBucket(d: DurationSummary, b: DurationBuckets, i: nat, total: nat) returns (xs: seq<U64>)
    requires i < BUCKETS && RoomFor(d, b) && d.max <= MAX_DURATION_NANOS
    requires Others(d, b, i) * Lowest(d, i) <= total <= Others(d, b, i) * Highest(d, i)
    ensures InRange(xs) && Between(xs, d.min, d.max) && Total(xs) == total
    ensures forall j :: Histogram(xs, j) == if j == i then Others(d, b, i) else 0
  {
    if Others(d, b, i) == 0 {
      xs := [];
    } else {
      xs := FillTotal(Others(d, b, i), Lowest(d, i), Highest(d, i), total);
      forall j ensures Histogram(xs, j) == if j == i then Others(d, b, i) else 0 {
        AllInBucket(xs, i, j);
      }
    }
  }

  /** The part of a total one bucket takes so that the earlier buckets can take the rest. */
  lemma ShareTotal(d: DurationSummary, b: DurationBuckets, k: nat, total: nat) returns (share: nat)
    requires 0 < k <= BUCKETS && RoomFor(d, b) && LeastOthers(d, b, k) <= total <= MostOthers(d, b, k)
    ensures Others(d, b, k - 1) * Lowest(d, k - 1) <= share <= Others(d, b, k - 1) * Highest(d, k - 1)
    ensures share <= total && LeastOthers(d, b, k - 1) <= total - share <= MostOthers(d, b, k - 1)
  {
    LeastBelowMost(d, b, k - 1);
    OthersOrdered(d, b, k - 1);
    LeastIsNatural(d, b, k - 1);
    var most := Others(d, b, k - 1) * Highest(d, k - 1);
    ScaleOrdered(Others(d, b, k - 1), 0, Lowest(d, k - 1));
    share := if total - LeastOthers(d, b, k - 1) <= most then total - LeastOthers(d, b, k - 1) else most;
  }

  lemma {:induction false} LeastIsNatural(d: DurationSummary, b: DurationBuckets, k: nat)
    requires k <= BUCKETS && RoomFor(d, b)
    ensures LeastOthers(d, b, k) >= 0
  {
    if k > 0 {
      LeastIsNatural(d, b, k - 1);
      ScaleOrdered(Others(d, b, k - 1), 0, Lowest(d, k - 1));
    }
  }

  lemma {:induction false} FillBuckets(d: DurationSummary, b: DurationBuckets, k: nat, total: nat) returns (xs: seq<U64>)
    requires k <= BUCKETS && RoomFor(d, b) && d.max <= MAX_DURATION_NANOS && LeastOthers(d, b, k) <= total <= MostOthers(d, b, k)
    ensures InRange(xs) && Between(xs, d.min, d.max) && Total(xs) == total
    ensures forall j: nat :: Histogram(xs, j) == if j < k then Others(d, b, j) else 0
  {
    if k == 0 {
      xs := [];
    } else {
      var share := ShareTotal(d, b, k, total);
      var before := FillBuckets(d, b, k - 1, total - share);
      var here := FillBucket(d, b, k - 1, share);
      xs := before + here;
      TotalAppend(before, here);
      forall j: nat ensures Histogram(xs, j) == if j < k then Others(d, b, j) else 0 {
        HistogramConcat(before, here, j);
      }
    }
  }

  lemma {:induction false} OnlyBucketTotal(xs: seq<U64>, i: nat)
    requires i < |xs| && forall k | 0 <= k < |xs| :: k != i ==> xs[k] == 0
    ensures Total(xs) == xs[i]
  {
    if i > 0 {
      OnlyBucketTotal(xs[1..], i - 1);
    } else {
      ZeroTotal(xs[1..]);
    }
  }

  lemma AcceptedHasRoom(d: DurationSummary, b: DurationBuckets)
    requires Accepted(d, b) && d.count >= 2
    ensures RoomFor(d, b)
  {
    var l, h := DurationBucket(d.min), DurationBucket(d.max);
    BucketMonotone(d.min, d.max);
    if l == h {
      OnlyBucketTotal(b, l);
    }
    forall i | 0 <= i < BUCKETS ensures Others(d, b, i) >= 0 && (Others(d, b, i) > 0 ==> Lowest(d, i) <= Highest(d, i)) {
      if l <= i <= h {
        BucketReachesExtrema(d, i);
      }
    }
  }

  lemma TightHasList(d: DurationSummary, b: DurationBuckets) returns (xs: seq<U64>)
    requires Accepted(d, b) && d.count >= 2 && TightSum(d, b)
    ensures Measures(d, b, xs)
  {
    AcceptedHasRoom(d, b);
    LeastIsNatural(d, b, BUCKETS);
    var rest := FillBuckets(d, b, BUCKETS, d.sum - d.min - d.max);
    xs := [d.min, d.max] + rest;
    WithExtrema(d.min, d.max, rest);
    forall i | 0 <= i < BUCKETS ensures Histogram(xs, i) == b[i] {
      HistogramConcat([d.min, d.max], rest, i);
      assert [d.min, d.max] == [d.min] + [d.max];
      HistogramConcat([d.min], [d.max], i);
      HistogramOne(d.min, i);
      HistogramOne(d.max, i);
    }
    HistogramSize(xs);
    SameCounts(b, Counts(xs));
  }

  /** A list is as long as its histogram counts. */
  function Added(h: seq<nat>): nat {
    if h == [] then 0 else Added(h[..|h| - 1]) + h[|h| - 1]
  }

  lemma {:induction false} AddedOne(g: seq<nat>, h: seq<nat>, j: nat)
    requires |g| == |h| && forall i | 0 <= i < |g| :: h[i] == g[i] + (if i == j then 1 else 0)
    ensures Added(h) == Added(g) + (if j < |g| then 1 else 0)
  {
    if g != [] {
      AddedOne(g[..|g| - 1], h[..|h| - 1], j);
    }
  }

  lemma {:induction false} AddedZero(h: seq<nat>)
    requires forall i | 0 <= i < |h| :: h[i] == 0
    ensures Added(h) == 0
  {
    if h != [] {
      AddedZero(h[..|h| - 1]);
    }
  }

  lemma {:induction false} HistogramSize(xs: seq<U64>)
    ensures Added(Counts(xs)) == |xs|
  {
    if xs == [] {
      AddedZero(Counts(xs));
    } else {
      HistogramSize(xs[..|xs| - 1]);
      AddedOne(Counts(xs[..|xs| - 1]), Counts(xs), DurationBucket(xs[|xs| - 1]));
    }
  }

  lemma {:induction false} AddedIsTotal(b: seq<U64>, h: seq<nat>)
    requires |b| == |h| && forall i | 0 <= i < |b| :: b[i] == h[i]
    ensures Added(h) == Total(b)
  {
    if h != [] {
      var n := |h| - 1;
      AddedIsTotal(b[..n], h[..n]);
      assert b == b[..n] + [b[n]];
      TotalSnoc(b[..n], b[n]);
    }
  }

  lemma SameCounts(b: DurationBuckets, h: seq<nat>)
    requires |h| == BUCKETS && forall i | 0 <= i < BUCKETS :: b[i] == h[i]
    ensures Added(h) == Total(b)
  {
    AddedIsTotal(b, h);
  }

  lemma FewHaveList(d: DurationSummary, b: DurationBuckets) returns (xs: seq<U64>)
    requires Accepted(d, b) && d.count < 2
    ensures Measures(d, b, xs)
  {
    if d.count == 0 {
      xs := [];
      forall i | 0 <= i < BUCKETS ensures b[i] == 0 {
        PartWithinTotal(b, i);
      }
    } else {
      xs := [d.sum];
      TotalSnoc([], d.sum);
      assert [] + [d.sum] == [d.sum];
      OnlyBucketTotal(b, DurationBucket(d.min));
      forall i | 0 <= i < BUCKETS ensures Histogram(xs, i) == b[i] {
        HistogramOne(d.sum, i);
      }
    }
  }

  /** Exactly which accepted summaries some list of durations has: all of them with fewer than two measurements, and
      otherwise those whose sum fits between the bucket edges tightened to the extrema, one minimum and one maximum
      set aside. */
  lemma AcceptedIsRealizableIff(d: DurationSummary, b: DurationBuckets)
    requires Accepted(d, b)
    ensures Realizable(d, b) <==> d.count < 2 || TightSum(d, b)
  {
    if d.count < 2 {
      var xs := FewHaveList(d, b);
    } else {
      if TightSum(d, b) {
        var xs := TightHasList(d, b);
      }
      if Realizable(d, b) {
        var xs :| Measures(d, b, xs);
        MeasuredIsTight(d, b, xs);
      }
    }
  }

  // ---- Streams of records -------------------------------------------------------------------------------------

  function FactsMeasured(stream: seq<FactSample>): seq<U64> {
    if stream == [] then []
    else
      var last := stream[|stream| - 1];
      FactsMeasured(stream[..|stream| - 1]) + (if last.duration.Nanos? then [last.duration.nanos] else [])
  }

  lemma MeasuresNothing(b: DurationBuckets, d: DurationSummary)
    requires b == NO_BUCKETS && d == NO_DURATIONS
    ensures Measures(d, b, [])
  {
  }

  lemma ExtremaOneMore(xs: seq<U64>, lo: U64, hi: U64, x: U64)
    requires IsLowest(xs, lo) && IsHighest(xs, hi)
    ensures IsLowest(xs + [x], Min(lo, x)) && IsHighest(xs + [x], Max(hi, x))
  {
    assert x in xs + [x] && forall y | y in xs :: y in xs + [x];
  }

  lemma HistogramOneMore(b: DurationBuckets, xs: seq<U64>, x: U64)
    requires HasHistogram(b, xs) && CountBucket(b, Nanos(x)).Some?
    ensures HasHistogram(CountBucket(b, Nanos(x)).value, xs + [x])
  {
    hide Histogram, DurationBucket;
    forall i | 0 <= i < BUCKETS ensures Histogram(xs + [x], i) == CountBucket(b, Nanos(x)).value[i] {
      HistogramConcat(xs, [x], i);
      HistogramOne(x, i);
    }
  }

  lemma MeasuresOneMore(d: DurationSummary, b: DurationBuckets, xs: seq<U64>, x: U64)
    requires Measures(d, b, xs) && x <= MAX_DURATION_NANOS
    ensures ObserveDuration(d, x).Some? && CountBucket(b, Nanos(x)).Some? ==>
              Measures(ObserveDuration(d, x).value, CountBucket(b, Nanos(x)).value, xs + [x])
  {
    hide HasHistogram, CountBucket, IsLowest, IsHighest;
    TotalSnoc(xs, x);
    if ObserveDuration(d, x).Some? && CountBucket(b, Nanos(x)).Some? {
      HistogramOneMore(b, xs, x);
      if xs == [] {
        OneIsExtreme(x);
        assert xs + [x] == [x];
      } else {
        ExtremaOneMore(xs, d.min, d.max, x);
      }
    }
  }

  lemma OneIsExtreme(x: U64)
    ensures IsLowest([x], x) && IsHighest([x], x)
  {
  }

  /** What one accepted record does to the two parts. */
  lemma ObservedParts(s: OperationalSummary, x: FactSample)
    requires Observe(s, x.duration, x.status, x.facts).Ok? && PlausibleFacts(x)
    ensures var t := Observe(s, x.duration, x.status, x.facts).value;
            if x.duration.Nanos?
            then ObserveDuration(s.durations, x.duration.nanos) == Some(t.durations) && CountBucket(s.buckets, x.duration) == Some(t.buckets)
            else t.buckets == s.buckets && t.durations == s.durations.(unobserved := t.durations.unobserved)
  {
  }

  lemma UnobservedIsApart(d: DurationSummary, e: DurationSummary, b: DurationBuckets, xs: seq<U64>)
    requires Measures(d, b, xs) && e == d.(unobserved := e.unobserved)
    ensures Measures(e, b, xs)
  {
  }

  /** Whatever accepted records fold to has their measured durations' statistics and histogram. */
  lemma {:induction false} FoldMeasures(stream: seq<FactSample>)
    requires PlausibleFactStream(stream) && FoldSummary(stream).Some?
    ensures Measures(FoldSummary(stream).value.durations, FoldSummary(stream).value.buckets, FactsMeasured(stream))
  {
    hide Measures, Observe, ObserveDuration, CountBucket;
    if stream == [] {
      MeasuresNothing(NO_BUCKETS, NO_DURATIONS);
    } else {
      var init, last := stream[..|stream| - 1], stream[|stream| - 1];
      var s, t := FoldSummary(init).value, FoldSummary(stream).value;
      FoldMeasures(init);
      assert PlausibleFacts(last);
      ObservedParts(s, last);
      if last.duration.Nanos? {
        MeasuresOneMore(s.durations, s.buckets, FactsMeasured(init), last.duration.nanos);
      } else {
        UnobservedIsApart(s.durations, t.durations, s.buckets, FactsMeasured(init));
        assert FactsMeasured(init) + [] == FactsMeasured(init);
      }
    }
  }

  /** So every folded summary is accepted and tight: no stream of accepted records leaves one in the gap between what the
      validator checks and what durations can be. */
  lemma FoldIsTight(stream: seq<FactSample>)
    requires PlausibleFactStream(stream) && |stream| <= MAX_UINT64 && FoldSummary(stream).Some?
    ensures var s := FoldSummary(stream).value;
            Accepted(s.durations, s.buckets) && (s.durations.count >= 2 ==> TightSum(s.durations, s.buckets))
  {
    hide Measures, TightSum;
    var s := FoldSummary(stream).value;
    ObservedIsValid(stream);
    FoldMeasures(stream);
    if s.durations.count >= 2 {
      MeasuredIsTight(s.durations, s.buckets, FactsMeasured(stream));
    }
  }

  // ---- A summary in the gap -----------------------------------------------------------------------------------

  const GAP_DURATIONS := DurationSummary(3, 0, 6_500_000, 0, 5_000_000)
  const GAP_BUCKETS: DurationBuckets := [2, 1, 0, 0, 0, 0, 0, 0, 0, 0, 0]

  lemma {:induction false} GapEdges(k: nat)
    requires 2 <= k <= BUCKETS
    ensures LowTotal(GAP_BUCKETS, k) == 1_000_001 && HighTotal(GAP_BUCKETS, k) == 7_000_000
    ensures MostOthers(GAP_DURATIONS, GAP_BUCKETS, k) == 1_000_000
  {
    if k == 2 {
      assert LowTotal(GAP_BUCKETS, 1) == 0 && HighTotal(GAP_BUCKETS, 1) == 2_000_000;
      assert MostOthers(GAP_DURATIONS, GAP_BUCKETS, 1) == 1_000_000;
    } else {
      GapEdges(k - 1);
      assert GAP_BUCKETS[k - 1] == 0;
    }
  }

  lemma GapTotal()
    ensures Total(GAP_BUCKETS) == 3
  {
    var b: DurationBuckets := GAP_BUCKETS;
    assert b == [2, 1] + b[2..];
    TotalAppend([2, 1], b[2..]);
    TotalOfTwo(2, 1);
    ZeroTotal(b[2..]);
  }

  /** Three durations, two up to 1 ms and one up to 5 ms, from 0 to 5 ms, totalling 6.5 ms: every check passes, and no
      three durations are like that, for the third can be at most 1 ms. */
  lemma ValidatorAcceptsTheGap()
    ensures Accepted(GAP_DURATIONS, GAP_BUCKETS) && !Realizable(GAP_DURATIONS, GAP_BUCKETS)
  {
    assert DurationBucket(0) == 0 && DurationBucket(5_000_000) == 1;
    GapEdges(BUCKETS);
    GapTotal();
    AcceptedIsRealizableIff(GAP_DURATIONS, GAP_BUCKETS);
  }
}
