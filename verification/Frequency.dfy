/** platform/frequency.go: how often each behavior, target and target name was called, per run and over a side's runs. */
module Frequency {
  import opened Bounded
  import opened Ordering
  import opened BehaviorOperational
  import opened Aggregate
  import opened Collector
  import opened Evidence
  import opened Conservation
  import opened Cost

  // ---- One key's accumulator ----------------------------------------------------------------------------------

  datatype Accumulator = Accumulator(total: U64, max: U64, minPresent: U64, presentRuns: U64)

  datatype FrequencyStats = FrequencyStats(runs: U64, total: U64, min: U64, max: U64, meanMilli: U64)

  const NO_CALLS := Accumulator(0, 0, 0, 0)
  const NO_STATS := FrequencyStats(0, 0, 0, 0, 0)

  function AddCalls(a: Accumulator, calls: U64): Option<Accumulator> {
    if a.total > MAX_UINT64 - calls then None
    else Some(Accumulator(a.total + calls, if calls > a.max then calls else a.max,
                          if a.presentRuns == 0 || calls < a.minPresent then calls else a.minPresent, Increment(a.presentRuns)))
  }

  /** floor(n * 1000 / d) in 128 bits. */
  function FloorDivTimes1000(n: U64, d: U64): Option<U64>
    requires d != 0
  {
    var (hi, lo) := Mul64(n, 1000);
    if hi >= d then None else Some(Div64(hi, lo, d))
  }

  lemma HighWordDecides(total: nat, hi: nat, lo: nat, d: nat)
    requires total == hi * TWO_TO_THE_64 + lo && lo < TWO_TO_THE_64 && d > 0
    ensures total / d <= MAX_UINT64 <==> hi < d
  {
    if hi < d {
      ScalesUp(hi + 1, d, TWO_TO_THE_64);
      QuotientBelow(total, d, TWO_TO_THE_64);
    } else {
      ScalesUp(d, hi, TWO_TO_THE_64);
      QuotientAtLeast(total, d, TWO_TO_THE_64);
    }
  }

  lemma QuotientAtLeast(n: nat, d: nat, bound: nat)
    requires d * bound <= n && d > 0
    ensures bound <= n / d
  {
    var q := n / d;
    assert n < (q + 1) * d;
    if q + 1 <= bound {
      ScalesUp(q + 1, bound, d);
    }
  }

  /** Exactly the floor, and an error exactly where it does not fit 64 bits. */
  lemma FloorDivExact(n: U64, d: U64)
    requires d != 0
    ensures FloorDivTimes1000(n, d).Some? <==> n * 1000 / d <= MAX_UINT64
    ensures FloorDivTimes1000(n, d).Some? ==> FloorDivTimes1000(n, d).value == n * 1000 / d
  {
    var (hi, lo) := Mul64(n, 1000);
    HighWordDecides(n * 1000, hi, lo, d);
  }

  function Stats(a: Accumulator, runs: U64): Option<FrequencyStats> {
    if runs == 0 then Some(NO_STATS)
    else
      match FloorDivTimes1000(a.total, runs)
      case None => None
      case Some(mean) => Some(FrequencyStats(runs, a.total, if a.presentRuns < runs then 0 else a.minPresent, a.max, mean))
  }

  // ---- The plain specification over per-run counts ------------------------------------------------------------

  function SumOf(calls: seq<nat>): nat {
    if calls == [] then 0 else SumOf(calls[..|calls| - 1]) + calls[|calls| - 1]
  }

  function PresentIn(calls: seq<nat>): nat {
    if calls == [] then 0 else PresentIn(calls[..|calls| - 1]) + (if calls[|calls| - 1] > 0 then 1 else 0)
  }

  ghost predicate IsMostOf(calls: seq<nat>, m: nat) {
    && (forall i | 0 <= i < |calls| :: calls[i] <= m)
    && (calls != [] ==> m in calls) && (calls == [] ==> m == 0)
  }

  ghost predicate IsLeastOf(calls: seq<nat>, m: nat) {
    && (forall i | 0 <= i < |calls| :: m <= calls[i])
    && (calls != [] ==> m in calls)
  }

  /** What an accumulator holds of the runs so far, absent runs counted as zero calls. */
  ghost predicate Represents(a: Accumulator, calls: seq<nat>) {
    && a.total == SumOf(calls) && a.presentRuns == PresentIn(calls)
    && (forall i | 0 <= i < |calls| :: calls[i] <= a.max) && (a.max == 0 || a.max in calls)
    && (a.presentRuns > 0 ==> a.minPresent > 0 && a.minPresent in calls)
    && (forall i | 0 <= i < |calls| :: calls[i] > 0 ==> a.minPresent <= calls[i])
  }

  lemma {:induction false} PresentBound(calls: seq<nat>)
    ensures PresentIn(calls) <= |calls|
    ensures PresentIn(calls) == |calls| <==> forall i | 0 <= i < |calls| :: calls[i] > 0
    ensures PresentIn(calls) == 0 <==> forall i | 0 <= i < |calls| :: calls[i] == 0
  {
    if calls != [] {
      var init := calls[..|calls| - 1];
      PresentBound(init);
      forall i | 0 <= i < |init| ensures calls[i] == init[i] {}
    }
  }

  lemma SnocSums(calls: seq<nat>, c: nat)
    ensures SumOf(calls + [c]) == SumOf(calls) + c && PresentIn(calls + [c]) == PresentIn(calls) + (if c > 0 then 1 else 0)
  {
    assert (calls + [c])[..|calls|] == calls;
  }

  lemma AbsentRun(a: Accumulator, calls: seq<nat>)
    requires Represents(a, calls)
    ensures Represents(a, calls + [0])
  {
    SnocSums(calls, 0);
  }

  /** A run with the key is refused exactly when the total no longer fits, and otherwise accounted for. */
  lemma PresentRun(a: Accumulator, calls: seq<nat>, c: U64)
    requires Represents(a, calls) && c > 0 && |calls| < MAX_UINT64
    ensures AddCalls(a, c).Some? <==> SumOf(calls + [c]) <= MAX_UINT64
    ensures AddCalls(a, c).Some? ==> Represents(AddCalls(a, c).value, calls + [c])
  {
    SnocSums(calls, c);
    PresentBound(calls);
    assert forall x | x in calls :: x in calls + [c];
    assert c in calls + [c];
  }

  lemma {:induction false} SumWithin(calls: seq<nat>, lo: nat, hi: nat)
    requires forall i | 0 <= i < |calls| :: lo <= calls[i] <= hi
    ensures |calls| * lo <= SumOf(calls) <= |calls| * hi
  {
    if calls != [] {
      var n := |calls| - 1;
      SumWithin(calls[..n], lo, hi);
      assert |calls| * lo == n * lo + lo && |calls| * hi == n * hi + hi;
    }
  }

  lemma MeanWithin(total: nat, runs: nat, lo: nat, hi: nat)
    requires runs > 0 && runs * lo <= total <= runs * hi
    ensures 1000 * lo <= total * 1000 / runs <= 1000 * hi
  {
    assert runs * (1000 * lo) <= total * 1000 <= runs * (1000 * hi);
    QuotientAtLeast(total * 1000, runs, 1000 * lo);
    QuotientAtMost(total * 1000, runs, 1000 * hi);
  }

  lemma QuotientAtMost(n: nat, d: nat, bound: nat)
    requires n <= d * bound && d > 0
    ensures n / d <= bound
  {
    var q := n / d;
    assert q * d <= n;
    if q >= bound + 1 {
      ScalesUp(bound + 1, q, d);
    }
  }

  /** The figures are what they are called, over every run of the side. */
  ghost predicate StatsOf(s: FrequencyStats, calls: seq<nat>) {
    && calls != [] && s.runs == |calls| && s.total == SumOf(calls) && IsLeastOf(calls, s.min) && IsMostOf(calls, s.max)
    && s.meanMilli == SumOf(calls) * 1000 / |calls|
    && 1000 * s.min <= s.meanMilli <= 1000 * s.max
  }

  lemma LeastIs(a: Accumulator, calls: seq<nat>)
    requires Represents(a, calls) && calls != []
    ensures IsLeastOf(calls, if a.presentRuns < |calls| then 0 else a.minPresent)
    ensures IsMostOf(calls, a.max)
  {
    PresentBound(calls);
    if a.max == 0 {
      assert calls[0] == 0;
    }
    if a.presentRuns < |calls| {
      var i :| 0 <= i < |calls| && calls[i] == 0;
      assert 0 in calls;
    }
  }

  /** Closing an accumulator over its runs gives the true figures, absent runs included, and errs exactly when the mean in
      thousandths does not fit 64 bits. */
  lemma StatsAreTrue(a: Accumulator, calls: seq<nat>)
    requires Represents(a, calls) && 0 < |calls| <= MAX_UINT64
    ensures Stats(a, |calls|).Some? <==> SumOf(calls) * 1000 / |calls| <= MAX_UINT64
    ensures Stats(a, |calls|).Some? ==> StatsOf(Stats(a, |calls|).value, calls)
  {
    hide FloorDivTimes1000, IsLeastOf, IsMostOf, SumOf, PresentIn;
    FloorDivExact(a.total, |calls|);
    LeastIs(a, calls);
    ExtremaBoundMean(calls, if a.presentRuns < |calls| then 0 else a.minPresent, a.max);
  }

  lemma ExtremaBoundMean(calls: seq<nat>, lo: nat, hi: nat)
    requires calls != [] && IsLeastOf(calls, lo) && IsMostOf(calls, hi)
    ensures 1000 * lo <= SumOf(calls) * 1000 / |calls| <= 1000 * hi
  {
    hide SumOf;
    SumWithin(calls, lo, hi);
    MeanWithin(SumOf(calls), |calls|, lo, hi);
  }

  predicate IsLost(referencePresent: U64, candidatePresent: U64, runs: U64) {
    runs > 0 && referencePresent == runs && candidatePresent < runs
  }

  // ---- Calls per key in one run -------------------------------------------------------------------------------

  datatype Target = Target(name: string, category: TargetCategory)

  function TargetOf(e: BehaviorEntry): Target {
    Target(e.behavior.targetName, e.behavior.targetCategory)
  }

  function NameOf(e: BehaviorEntry): string {
    e.behavior.targetName
  }

  function IdOf(e: BehaviorEntry): Id {
    e.fingerprintId
  }

  function Calls(e: BehaviorEntry): nat {
    e.observations
  }

  function Only<K(==)>(w: BehaviorEntry -> nat, g: BehaviorEntry -> K, k: K): BehaviorEntry -> nat {
    e => if g(e) == k then w(e) else 0
  }

  /** How often one run called the key. */
  function CallsIn<K(==)>(g: BehaviorEntry -> K, k: K, run: seq<BehaviorEntry>): nat {
    SumBy(Only(Calls, g, k), run)
  }

  /** The key's calls over a side's runs, a run without it counting zero. */
  function PerRun<K(==)>(g: BehaviorEntry -> K, k: K, runs: seq<seq<BehaviorEntry>>): (r: seq<nat>)
    ensures |r| == |runs|
  {
    if runs == [] then [] else PerRun(g, k, runs[..|runs| - 1]) + [CallsIn(g, k, runs[|runs| - 1])]
  }

  ghost function ClassTotal<K>(w: BehaviorEntry -> nat, g: BehaviorEntry -> K, keys: set<K>, run: seq<BehaviorEntry>): nat
    decreases |keys|
  {
    if keys == {} then 0
    else
      var k :| k in keys;
      SumBy(Only(w, g, k), run) + ClassTotal(w, g, keys - {k}, run)
  }

  lemma {:induction false} ClassTotalAt<K>(w: BehaviorEntry -> nat, g: BehaviorEntry -> K, keys: set<K>, run: seq<BehaviorEntry>, k: K)
    requires k in keys
    ensures ClassTotal(w, g, keys, run) == SumBy(Only(w, g, k), run) + ClassTotal(w, g, keys - {k}, run)
    decreases |keys|
  {
    hide SumBy, Only;
    var j :| j in keys && ClassTotal(w, g, keys, run) == SumBy(Only(w, g, j), run) + ClassTotal(w, g, keys - {j}, run);
    if j != k {
      ClassTotalAt(w, g, keys - {j}, run, k);
      ClassTotalAt(w, g, keys - {k}, run, j);
      assert keys - {j} - {k} == keys - {k} - {j};
    }
  }

  lemma {:induction false} ClassTotalSnoc<K>(w: BehaviorEntry -> nat, g: BehaviorEntry -> K, keys: set<K>, run: seq<BehaviorEntry>, e: BehaviorEntry)
    ensures ClassTotal(w, g, keys, run + [e]) == ClassTotal(w, g, keys, run) + (if g(e) in keys then w(e) else 0)
    decreases |keys|
  {
    hide SumBy;
    if keys != {} {
      var k :| k in keys;
      ClassTotalAt(w, g, keys, run, k);
      ClassTotalAt(w, g, keys, run + [e], k);
      SumBySnoc(Only(w, g, k), run, e);
      ClassTotalSnoc(w, g, keys - {k}, run, e);
    }
  }

  lemma {:induction false} NoClassTotal<K>(w: BehaviorEntry -> nat, g: BehaviorEntry -> K, keys: set<K>, run: seq<BehaviorEntry>)
    requires |run| == 0
    ensures ClassTotal(w, g, keys, run) == 0
    decreases |keys|
  {
    if keys != {} {
      var k :| k in keys;
      ClassTotalAt(w, g, keys, run, k);
      NoClassTotal(w, g, keys - {k}, run);
    }
  }

  /** Grouping loses nothing: the groups of a covering set of keys add up to everything weighed. */
  lemma {:induction false} GroupsAddUp<K>(w: BehaviorEntry -> nat, g: BehaviorEntry -> K, keys: set<K>, run: seq<BehaviorEntry>)
    requires forall e | e in run :: w(e) > 0 ==> g(e) in keys
    ensures ClassTotal(w, g, keys, run) == SumBy(w, run)
  {
    if run == [] {
      NoClassTotal(w, g, keys, run);
    } else {
      var init, e := run[..|run| - 1], run[|run| - 1];
      assert run == init + [e];
      GroupsAddUp(w, g, keys, init);
      ClassTotalSnoc(w, g, keys, init, e);
      SumBySnoc(w, init, e);
    }
  }

  // ---- One side -----------------------------------------------------------------------------------------------

  function AccumulatorAt<K(==)>(m: map<K, Accumulator>, k: K): Accumulator {
    if k in m then m[k] else NO_CALLS
  }

  function CountAt<K(==)>(part: map<K, U64>, k: K): U64 {
    if k in part then part[k] else 0
  }

  /** A key's accumulator stands for its calls, and exists exactly when it was called. */
  ghost predicate TracksKey<K>(m: map<K, Accumulator>, k: K, calls: seq<nat>) {
    Represents(AccumulatorAt(m, k), calls) && (k in m <==> PresentIn(calls) > 0)
  }

  /** Every key's accumulator stands for its calls over the runs. */
  ghost predicate Tracks<K(!new)>(m: map<K, Accumulator>, g: BehaviorEntry -> K, runs: seq<seq<BehaviorEntry>>) {
    forall k :: TracksKey(m, k, PerRun(g, k, runs))
  }

  /** The same while one more run is being folded in, of which only `part` has been counted. */
  ghost predicate TracksPartly<K(!new)>(m: map<K, Accumulator>, g: BehaviorEntry -> K, past: seq<seq<BehaviorEntry>>, part: map<K, U64>) {
    forall k :: TracksKey(m, k, PerRun(g, k, past) + [CountAt(part, k) as nat])
  }

  lemma PerRunSnoc<K>(g: BehaviorEntry -> K, k: K, past: seq<seq<BehaviorEntry>>, run: seq<BehaviorEntry>)
    ensures PerRun(g, k, past + [run]) == PerRun(g, k, past) + [CallsIn(g, k, run)]
  {
    hide CallsIn;
    assert (past + [run])[..|past|] == past;
  }

  lemma StartPartly<K(!new)>(m: map<K, Accumulator>, g: BehaviorEntry -> K, past: seq<seq<BehaviorEntry>>, none: map<K, U64>)
    requires Tracks(m, g, past) && none == map[]
    ensures TracksPartly(m, g, past, none)
  {
    hide Represents, PerRun, TracksKey;
    forall k ensures TracksKey(m, k, PerRun(g, k, past) + [CountAt(none, k) as nat]) {
      assert TracksKey(m, k, PerRun(g, k, past));
      AbsentKey(m, k, PerRun(g, k, past));
    }
  }

  lemma AbsentKey<K>(m: map<K, Accumulator>, k: K, calls: seq<nat>)
    requires TracksKey(m, k, calls)
    ensures TracksKey(m, k, calls + [0])
  {
    hide Represents;
    AbsentRun(AccumulatorAt(m, k), calls);
    SnocSums(calls, 0);
  }

  lemma FinishPartly<K(!new)>(m: map<K, Accumulator>, g: BehaviorEntry -> K, past: seq<seq<BehaviorEntry>>, part: map<K, U64>, run: seq<BehaviorEntry>)
    requires TracksPartly(m, g, past, part) && forall k :: CountAt(part, k) == CallsIn(g, k, run)
    ensures Tracks(m, g, past + [run])
  {
    hide Represents, PerRun, CallsIn, TracksKey;
    forall k ensures TracksKey(m, k, PerRun(g, k, past + [run])) {
      PerRunSnoc(g, k, past, run);
      assert TracksKey(m, k, PerRun(g, k, past) + [CountAt(part, k) as nat]);
    }
  }

  lemma PresentKey<K>(m: map<K, Accumulator>, k: K, calls: seq<nat>, c: U64)
    requires TracksKey(m, k, calls + [0]) && c > 0 && |calls| < MAX_UINT64
    ensures AddCalls(AccumulatorAt(m, k), c).Some? <==> SumOf(calls + [c as nat]) <= MAX_UINT64
    ensures AddCalls(AccumulatorAt(m, k), c).Some? ==> TracksKey(m[k := AddCalls(AccumulatorAt(m, k), c).value], k, calls + [c as nat])
  {
    hide AddCalls, SumOf;
    WithoutAbsent(AccumulatorAt(m, k), calls);
    PresentRun(AccumulatorAt(m, k), calls, c);
    SnocSums(calls, c);
  }

  lemma WithoutAbsent(a: Accumulator, calls: seq<nat>)
    requires Represents(a, calls + [0])
    ensures Represents(a, calls)
  {
    SnocSums(calls, 0);
    forall i | 0 <= i < |calls| ensures calls[i] == (calls + [0])[i] {}
    if a.max > 0 {
      var i :| 0 <= i < |calls + [0]| && (calls + [0])[i] == a.max;
      assert calls[i] == a.max;
    }
    if a.presentRuns > 0 {
      var i :| 0 <= i < |calls + [0]| && (calls + [0])[i] == a.minPresent;
      assert calls[i] == a.minPresent;
    }
  }

  /** One key counted: refused exactly when its total over all the runs no longer fits. */
  lemma CountKey<K(!new)>(m: map<K, Accumulator>, g: BehaviorEntry -> K, past: seq<seq<BehaviorEntry>>, part: map<K, U64>, k: K, c: U64)
    requires TracksPartly(m, g, past, part) && k !in part && c > 0 && |past| < MAX_UINT64
    ensures AddCalls(AccumulatorAt(m, k), c).Some? <==> SumOf(PerRun(g, k, past)) + c <= MAX_UINT64
    ensures AddCalls(AccumulatorAt(m, k), c).Some? ==>
              TracksPartly(m[k := AddCalls(AccumulatorAt(m, k), c).value], g, past, part[k := c])
  {
    hide Represents, PerRun, AddCalls, SumOf, PresentIn;
    assert TracksKey(m, k, PerRun(g, k, past) + [CountAt(part, k) as nat]);
    PresentKey(m, k, PerRun(g, k, past), c);
    SnocSums(PerRun(g, k, past), c);
    if AddCalls(AccumulatorAt(m, k), c).Some? {
      var n := m[k := AddCalls(AccumulatorAt(m, k), c).value];
      forall j ensures TracksKey(n, j, PerRun(g, j, past) + [CountAt(part[k := c], j) as nat]) {
        assert TracksKey(m, j, PerRun(g, j, past) + [CountAt(part, j) as nat]);
      }
    }
  }

  // ---- Status counts per target -------------------------------------------------------------------------------

  /** HTTPStatusClassCounts.Stated, an unguarded sum. */
  function StatedCodes(h: HttpStatusCounts): U64 {
    (h.informational + h.success + h.redirection + h.clientError + h.serverError) % TWO_TO_THE_64
  }

  /** What an entry that was called adds to its target's 429s and to its stated codes. */
  function RateLimited(e: BehaviorEntry): nat {
    if e.observations == 0 then 0 else e.operational.http429
  }

  function StatedStatus(e: BehaviorEntry): nat {
    if e.observations == 0 then 0 else StatedCodes(e.operational.httpStatus)
  }

  /** A target's count in one run and over a side's runs. */
  function TargetSum(w: BehaviorEntry -> nat, t: Target, run: seq<BehaviorEntry>): nat {
    SumBy(Only(w, TargetOf, t), run)
  }

  function TargetTotal(w: BehaviorEntry -> nat, t: Target, runs: seq<seq<BehaviorEntry>>): nat {
    if runs == [] then 0 else TargetTotal(w, t, runs[..|runs| - 1]) + TargetSum(w, t, runs[|runs| - 1])
  }

  /** The counts are those of the runs and of the part of one more that has been folded in. */
  ghost predicate TotalsWith(m: map<Target, U64>, w: BehaviorEntry -> nat, past: seq<seq<BehaviorEntry>>, part: seq<BehaviorEntry>) {
    forall t :: CountAt(m, t) == TargetTotal(w, t, past) + TargetSum(w, t, part)
  }

  ghost predicate TotalsAre(m: map<Target, U64>, w: BehaviorEntry -> nat, runs: seq<seq<BehaviorEntry>>) {
    forall t :: CountAt(m, t) == TargetTotal(w, t, runs)
  }

  ghost predicate TotalsFitTargets(w: BehaviorEntry -> nat, runs: seq<seq<BehaviorEntry>>) {
    forall t :: TargetTotal(w, t, runs) <= MAX_UINT64
  }

  lemma TotalsBegin(m: map<Target, U64>, w: BehaviorEntry -> nat, past: seq<seq<BehaviorEntry>>, none: seq<BehaviorEntry>)
    requires TotalsAre(m, w, past) && none == []
    ensures TotalsWith(m, w, past, none)
  {
    hide TargetTotal;
  }

  lemma TargetTotalSnoc(w: BehaviorEntry -> nat, t: Target, past: seq<seq<BehaviorEntry>>, run: seq<BehaviorEntry>)
    ensures TargetTotal(w, t, past + [run]) == TargetTotal(w, t, past) + TargetSum(w, t, run)
  {
    hide TargetSum;
    assert (past + [run])[..|past|] == past;
  }

  lemma TotalsEnd(m: map<Target, U64>, w: BehaviorEntry -> nat, past: seq<seq<BehaviorEntry>>, run: seq<BehaviorEntry>)
    requires TotalsWith(m, w, past, run)
    ensures TotalsAre(m, w, past + [run])
  {
    hide TargetTotal, TargetSum;
    forall t ensures CountAt(m, t) == TargetTotal(w, t, past + [run]) {
      TargetTotalSnoc(w, t, past, run);
      assert CountAt(m, t) == TargetTotal(w, t, past) + TargetSum(w, t, run);
    }
  }

  lemma TargetSumSnoc(w: BehaviorEntry -> nat, t: Target, part: seq<BehaviorEntry>, e: BehaviorEntry)
    ensures TargetSum(w, t, part + [e]) == TargetSum(w, t, part) + (if TargetOf(e) == t then w(e) else 0)
  {
    hide SumBy;
    SumBySnoc(Only(w, TargetOf, t), part, e);
  }

  lemma {:induction false} TargetSumGrows(w: BehaviorEntry -> nat, t: Target, run: seq<BehaviorEntry>, n: nat)
    requires n <= |run|
    ensures TargetSum(w, t, run[..n]) <= TargetSum(w, t, run)
    decreases |run| - n
  {
    hide TargetSum;
    if n == |run| {
      assert run[..n] == run;
    } else {
      assert run[..n + 1] == run[..n] + [run[n]];
      TargetSumSnoc(w, t, run[..n], run[n]);
      TargetSumGrows(w, t, run, n + 1);
    }
  }

  /** One more entry: refused exactly when its target's count no longer fits, and then neither does the run's. */
  lemma TotalsOneMore(m: map<Target, U64>, w: BehaviorEntry -> nat, past: seq<seq<BehaviorEntry>>, run: seq<BehaviorEntry>, n: nat)
    requires n < |run| && TotalsWith(m, w, past, run[..n])
    ensures var t := TargetOf(run[n]);
            if CountAt(m, t) + w(run[n]) <= MAX_UINT64
            then TotalsWith(m[t := CountAt(m, t) + w(run[n])], w, past, run[..n + 1])
            else !TotalsFitTargets(w, past + [run])
  {
    hide TargetTotal, TargetSum;
    var e, t := run[n], TargetOf(run[n]);
    assert run[..n + 1] == run[..n] + [e];
    assert CountAt(m, t) == TargetTotal(w, t, past) + TargetSum(w, t, run[..n]);
    TargetSumSnoc(w, t, run[..n], e);
    TargetSumGrows(w, t, run, n + 1);
    TargetTotalSnoc(w, t, past, run);
    if CountAt(m, t) + w(e) <= MAX_UINT64 {
      var next := m[t := CountAt(m, t) + w(e)];
      forall u ensures CountAt(next, u) == TargetTotal(w, u, past) + TargetSum(w, u, run[..n + 1]) {
        TargetSumSnoc(w, u, run[..n], e);
        assert CountAt(m, u) == TargetTotal(w, u, past) + TargetSum(w, u, run[..n]);
      }
    }
  }

  lemma TotalsSkip(m: map<Target, U64>, w: BehaviorEntry -> nat, past: seq<seq<BehaviorEntry>>, run: seq<BehaviorEntry>, n: nat)
    requires n < |run| && TotalsWith(m, w, past, run[..n]) && w(run[n]) == 0
    ensures TotalsWith(m, w, past, run[..n + 1])
  {
    hide TargetTotal, TargetSum;
    assert run[..n + 1] == run[..n] + [run[n]];
    forall u ensures CountAt(m, u) == TargetTotal(w, u, past) + TargetSum(w, u, run[..n + 1]) {
      TargetSumSnoc(w, u, run[..n], run[n]);
      assert CountAt(m, u) == TargetTotal(w, u, past) + TargetSum(w, u, run[..n]);
    }
  }

  /** The totals of every behavior, target and target name, and both status counts of every target, fit 64 bits. */
  ghost predicate FrequencyFits(runs: seq<seq<BehaviorEntry>>) {
    && TotalsFitTargets(RateLimited, runs) && TotalsFitTargets(StatedStatus, runs)
    && (forall id :: SumOf(PerRun(IdOf, id, runs)) <= MAX_UINT64)
    && (forall t :: SumOf(PerRun(TargetOf, t, runs)) <= MAX_UINT64)
    && (forall n :: SumOf(PerRun(NameOf, n, runs)) <= MAX_UINT64)
  }

  lemma FitsKey<K>(g: BehaviorEntry -> K, k: K, past: seq<seq<BehaviorEntry>>, run: seq<BehaviorEntry>)
    ensures SumOf(PerRun(g, k, past + [run])) == SumOf(PerRun(g, k, past)) + CallsIn(g, k, run)
  {
    hide CallsIn, PerRun, SumOf;
    PerRunSnoc(g, k, past, run);
    SnocSums(PerRun(g, k, past), CallsIn(g, k, run));
  }

  ghost predicate DistinctFingerprints(run: seq<BehaviorEntry>) {
    forall i, j | 0 <= i < j < |run| :: run[i].fingerprintId != run[j].fingerprintId
  }

  lemma CallsInSnoc<K>(g: BehaviorEntry -> K, k: K, run: seq<BehaviorEntry>, e: BehaviorEntry)
    ensures CallsIn(g, k, run + [e]) == CallsIn(g, k, run) + (if g(e) == k then e.observations as nat else 0)
  {
    hide SumBy;
    SumBySnoc(Only(Calls, g, k), run, e);
  }

  lemma {:induction false} CallsInGrows<K>(g: BehaviorEntry -> K, k: K, run: seq<BehaviorEntry>, n: nat)
    requires n <= |run|
    ensures CallsIn(g, k, run[..n]) <= CallsIn(g, k, run)
    decreases |run| - n
  {
    hide CallsIn;
    if n == |run| {
      assert run[..n] == run;
    } else {
      assert run[..n + 1] == run[..n] + [run[n]];
      CallsInSnoc(g, k, run[..n], run[n]);
      CallsInGrows(g, k, run, n + 1);
    }
  }

  lemma {:induction false} UncalledId(run: seq<BehaviorEntry>, id: Id)
    requires forall i | 0 <= i < |run| :: run[i].fingerprintId != id
    ensures CallsIn(IdOf, id, run) == 0
  {
    if run != [] {
      var init, e := run[..|run| - 1], run[|run| - 1];
      assert run == init + [e];
      UncalledId(init, id);
      CallsInSnoc(IdOf, id, init, e);
    }
  }

  /** What has been counted of a run is its prefix's calls. */
  ghost predicate CountsPrefix<K(!new)>(part: map<K, U64>, g: BehaviorEntry -> K, run: seq<BehaviorEntry>) {
    forall k :: CountAt(part, k) == CallsIn(g, k, run) && (k in part ==> part[k] > 0)
  }

  lemma CountsSkip<K(!new)>(part: map<K, U64>, g: BehaviorEntry -> K, run: seq<BehaviorEntry>, e: BehaviorEntry)
    requires CountsPrefix(part, g, run) && e.observations == 0
    ensures CountsPrefix(part, g, run + [e])
  {
    hide CallsIn;
    forall k ensures CountAt(part, k) == CallsIn(g, k, run + [e]) {
      CallsInSnoc(g, k, run, e);
      assert CountAt(part, k) == CallsIn(g, k, run);
    }
  }

  lemma CountsOneMore<K(!new)>(part: map<K, U64>, g: BehaviorEntry -> K, run: seq<BehaviorEntry>, e: BehaviorEntry)
    requires CountsPrefix(part, g, run) && e.observations > 0
    ensures CallsIn(g, g(e), run + [e]) == CountAt(part, g(e)) + e.observations
    ensures CountAt(part, g(e)) + e.observations <= MAX_UINT64 ==>
              CountsPrefix(part[g(e) := CountAt(part, g(e)) + e.observations], g, run + [e])
  {
    hide CallsIn;
    CallsInSnoc(g, g(e), run, e);
    assert CountAt(part, g(e)) == CallsIn(g, g(e), run);
    if CountAt(part, g(e)) + e.observations <= MAX_UINT64 {
      var next := part[g(e) := CountAt(part, g(e)) + e.observations];
      forall k ensures CountAt(next, k) == CallsIn(g, k, run + [e]) {
        CallsInSnoc(g, k, run, e);
        assert CountAt(part, k) == CallsIn(g, k, run);
      }
    }
  }

  lemma {:induction false} NameWithinTarget(n: string, t: Target, run: seq<BehaviorEntry>)
    ensures SumBy(Only(Only(Calls, NameOf, n), TargetOf, t), run) == if t.name == n then CallsIn(TargetOf, t, run) else 0
  {
    if run != [] {
      hide SumBy;
      var init, e := run[..|run| - 1], run[|run| - 1];
      assert run == init + [e];
      NameWithinTarget(n, t, init);
      SumBySnoc(Only(Only(Calls, NameOf, n), TargetOf, t), init, e);
      SumBySnoc(Only(Calls, TargetOf, t), init, e);
    }
  }

  lemma CalledIsCounted<K(!new)>(part: map<K, U64>, g: BehaviorEntry -> K, run: seq<BehaviorEntry>, e: BehaviorEntry)
    requires CountsPrefix(part, g, run) && e in run && e.observations > 0
    ensures g(e) in part
  {
    hide CallsIn;
    var i :| 0 <= i < |run| && run[i] == e;
    CallsInSnoc(g, g(e), run[..i], e);
    assert run[..i + 1] == run[..i] + [e];
    CallsInGrows(g, g(e), run, i + 1);
    assert CountAt(part, g(e)) == CallsIn(g, g(e), run);
  }

  /** Names counted from the targets done so far. */
  ghost predicate NamesFrom(perName: map<string, U64>, done: set<Target>, run: seq<BehaviorEntry>) {
    forall n :: CountAt(perName, n) == ClassTotal(Only(Calls, NameOf, n), TargetOf, done, run) && (n in perName ==> perName[n] > 0)
  }

  lemma NoNamesYet(none: map<string, U64>, run: seq<BehaviorEntry>)
    requires none == map[]
    ensures NamesFrom(none, {}, run)
  {
  }

  lemma NamesOneMore(perName: map<string, U64>, done: set<Target>, t: Target, run: seq<BehaviorEntry>)
    requires NamesFrom(perName, done, run) && t !in done && CallsIn(TargetOf, t, run) > 0
    ensures var next := CountAt(perName, t.name) + CallsIn(TargetOf, t, run);
            && next == ClassTotal(Only(Calls, NameOf, t.name), TargetOf, done + {t}, run)
            && (next <= MAX_UINT64 ==> NamesFrom(perName[t.name := next], done + {t}, run))
  {
    hide CallsIn, ClassTotal, Only, SumBy;
    var next := CountAt(perName, t.name) + CallsIn(TargetOf, t, run);
    forall n ensures ClassTotal(Only(Calls, NameOf, n), TargetOf, done + {t}, run)
                     == CountAt(perName, n) + (if n == t.name then CallsIn(TargetOf, t, run) else 0) {
      ClassTotalAt(Only(Calls, NameOf, n), TargetOf, done + {t}, run, t);
      assert done + {t} - {t} == done;
      NameWithinTarget(n, t, run);
      assert CountAt(perName, n) == ClassTotal(Only(Calls, NameOf, n), TargetOf, done, run);
    }
    if next <= MAX_UINT64 {
      forall n ensures CountAt(perName[t.name := next], n) == ClassTotal(Only(Calls, NameOf, n), TargetOf, done + {t}, run) {
        assert ClassTotal(Only(Calls, NameOf, n), TargetOf, done + {t}, run)
               == CountAt(perName, n) + (if n == t.name then CallsIn(TargetOf, t, run) else 0);
      }
    }
  }

  lemma {:induction false} ClassTotalGrows<K>(w: BehaviorEntry -> nat, g: BehaviorEntry -> K, a: set<K>, b: set<K>, run: seq<BehaviorEntry>)
    requires a <= b
    ensures ClassTotal(w, g, a, run) <= ClassTotal(w, g, b, run)
    decreases |b - a|
  {
    hide ClassTotal, Only, SumBy;
    if b - a != {} {
      var k :| k in b - a;
      ClassTotalAt(w, g, a + {k}, run, k);
      assert a + {k} - {k} == a;
      assert b - (a + {k}) == b - a - {k};
      ClassTotalGrows(w, g, a + {k}, b, run);
    } else {
      forall x | x in b ensures x in a {
        assert x !in b - a;
      }
      assert a == b;
    }
  }

  lemma CallsToName(n: string, e: BehaviorEntry)
    ensures Only(Calls, NameOf, n)(e) == if NameOf(e) == n then e.observations else 0
  {
    assert Calls(e) == e.observations;
  }

  lemma NameCovered(perTarget: map<Target, U64>, n: string, run: seq<BehaviorEntry>)
    requires CountsPrefix(perTarget, TargetOf, run)
    ensures ClassTotal(Only(Calls, NameOf, n), TargetOf, perTarget.Keys, run) == CallsIn(NameOf, n, run)
  {
    hide ClassTotal, SumBy, CountsPrefix;
    forall e | e in run ensures Only(Calls, NameOf, n)(e) > 0 ==> TargetOf(e) in perTarget.Keys {
      CallsToName(n, e);
      if e.observations > 0 {
        CalledIsCounted(perTarget, TargetOf, run, e);
      }
    }
    GroupsAddUp(Only(Calls, NameOf, n), TargetOf, perTarget.Keys, run);
  }

  lemma NamesDone(perName: map<string, U64>, perTarget: map<Target, U64>, run: seq<BehaviorEntry>)
    requires NamesFrom(perName, perTarget.Keys, run) && CountsPrefix(perTarget, TargetOf, run)
    ensures CountsPrefix(perName, NameOf, run)
  {
    hide ClassTotal, CallsIn;
    forall n ensures CountAt(perName, n) == CallsIn(NameOf, n, run) {
      NameCovered(perTarget, n, run);
      assert CountAt(perName, n) == ClassTotal(Only(Calls, NameOf, n), TargetOf, perTarget.Keys, run);
    }
  }

  lemma TotalTooBig<K>(g: BehaviorEntry -> K, k: K, past: seq<seq<BehaviorEntry>>, run: seq<BehaviorEntry>, c: nat)
    requires c <= CallsIn(g, k, run)
    ensures SumOf(PerRun(g, k, past)) + c > MAX_UINT64 ==> SumOf(PerRun(g, k, past + [run])) > MAX_UINT64
  {
    hide CallsIn, PerRun, SumOf;
    FitsKey(g, k, past, run);
  }

  /** The counted part is the whole run's counts, restricted to the keys folded in. */
  ghost predicate PartOf<K>(part: map<K, U64>, counts: map<K, U64>, left: set<K>) {
    left <= counts.Keys && part.Keys == counts.Keys - left && forall k | k in part :: part[k] == counts[k]
  }

  lemma PartDone<K>(part: map<K, U64>, counts: map<K, U64>)
    requires PartOf(part, counts, {})
    ensures part == counts
  {
  }

  lemma PartGrows<K>(part: map<K, U64>, counts: map<K, U64>, left: set<K>, k: K)
    requires PartOf(part, counts, left) && k in left
    ensures k !in part && PartOf(part[k := counts[k]], counts, left - {k})
  {
  }

  lemma PartExcludes<K>(part: map<K, U64>, counts: map<K, U64>, left: set<K>, k: K)
    requires PartOf(part, counts, left) && k in left
    ensures k !in part && left <= counts.Keys
  {
  }

  lemma PartStarts<K>(none: map<K, U64>, counts: map<K, U64>)
    requires none == map[]
    ensures PartOf(none, counts, counts.Keys)
  {
  }

  lemma CountedIs<K(!new)>(counts: map<K, U64>, g: BehaviorEntry -> K, run: seq<BehaviorEntry>, k: K)
    requires CountsPrefix(counts, g, run) && k in counts
    ensures counts[k] == CallsIn(g, k, run) > 0
  {
    hide CallsIn;
    assert CountAt(counts, k) == CallsIn(g, k, run);
  }

  lemma CountsMeanCalls<K(!new)>(counts: map<K, U64>, g: BehaviorEntry -> K, run: seq<BehaviorEntry>)
    requires CountsPrefix(counts, g, run)
    ensures forall k :: CountAt(counts, k) == CallsIn(g, k, run)
  {
    hide CallsIn;
  }

  class FrequencySide {
    var runs: U64
    var behaviors: map<Id, Accumulator>
    var targets: map<Target, Accumulator>
    var byName: map<string, Accumulator>
    var http429: map<Target, U64>
    var httpSaid: map<Target, U64>

    /** The figures of this side stand for these runs. */
    ghost predicate StandsFor(past: seq<seq<BehaviorEntry>>)
      reads this
    {
      && runs == |past|
      && Tracks(behaviors, IdOf, past) && Tracks(targets, TargetOf, past) && Tracks(byName, NameOf, past)
      && TotalsAre(http429, RateLimited, past) && TotalsAre(httpSaid, StatedStatus, past)
    }

    constructor ()
      ensures StandsFor([])
    {
      runs := 0;
      behaviors, targets, byName := map[], map[], map[];
      http429, httpSaid := map[], map[];
    }

    /** One behavior of the run. */
    method CountBehavior(e: BehaviorEntry, ghost past: seq<seq<BehaviorEntry>>, ghost part: map<Id, U64>) returns (ok: bool)
      requires TracksPartly(behaviors, IdOf, past, part) && e.fingerprintId !in part && e.observations > 0 && |past| < MAX_UINT64
      modifies this`behaviors
      ensures ok <==> SumOf(PerRun(IdOf, e.fingerprintId, past)) + e.observations <= MAX_UINT64
      ensures ok ==> TracksPartly(behaviors, IdOf, past, part[e.fingerprintId := e.observations])
    {
      hide TracksPartly, AddCalls, SumOf, PerRun;
      CountKey(behaviors, IdOf, past, part, e.fingerprintId, e.observations);
      var next := AddCalls(AccumulatorAt(behaviors, e.fingerprintId), e.observations);
      if next.None? {
        return false;
      }
      behaviors := behaviors[e.fingerprintId := next.value];
      ok := true;
    }

    /** One entry's 429s and stated codes. */
    method CountStatuses(entries: seq<BehaviorEntry>, i: nat, ghost past: seq<seq<BehaviorEntry>>) returns (ok: bool)
      requires i < |entries| && entries[i].observations > 0
      requires TotalsWith(http429, RateLimited, past, entries[..i]) && TotalsWith(httpSaid, StatedStatus, past, entries[..i])
      modifies this`http429, this`httpSaid
      ensures ok ==> TotalsWith(http429, RateLimited, past, entries[..i + 1]) && TotalsWith(httpSaid, StatedStatus, past, entries[..i + 1])
      ensures !ok ==> !TotalsFitTargets(RateLimited, past + [entries]) || !TotalsFitTargets(StatedStatus, past + [entries])
    {
      hide TotalsWith, TotalsFitTargets;
      var e := entries[i];
      var t := TargetOf(e);
      TotalsOneMore(http429, RateLimited, past, entries, i);
      TotalsOneMore(httpSaid, StatedStatus, past, entries, i);
      var limited := AddCount(CountAt(http429, t), e.operational.http429);
      if limited.None? {
        return false;
      }
      http429 := http429[t := limited.value];
      var said := AddCount(CountAt(httpSaid, t), StatedCodes(e.operational.httpStatus));
      if said.None? {
        return false;
      }
      httpSaid := httpSaid[t := said.value];
      ok := true;
    }

    /** The loop over the run's entries: behaviors are counted at once, calls to a target are grouped first. */
    method CountEntries(entries: seq<BehaviorEntry>, ghost past: seq<seq<BehaviorEntry>>) returns (ok: bool, perTarget: map<Target, U64>)
      requires Tracks(behaviors, IdOf, past) && |past| < MAX_UINT64 && DistinctFingerprints(entries)
      requires TotalsAre(http429, RateLimited, past) && TotalsAre(httpSaid, StatedStatus, past)
      modifies this`behaviors, this`http429, this`httpSaid
      ensures ok ==> Tracks(behaviors, IdOf, past + [entries]) && CountsPrefix(perTarget, TargetOf, entries)
      ensures ok ==> TotalsAre(http429, RateLimited, past + [entries]) && TotalsAre(httpSaid, StatedStatus, past + [entries])
      ensures !ok ==> !FrequencyFits(past + [entries])
    {
      hide TracksPartly, Tracks, CountsPrefix, SumOf, PerRun, CallsIn, TotalsWith, TotalsAre, TotalsFitTargets;
      TotalsBegin(http429, RateLimited, past, entries[..0]);
      TotalsBegin(httpSaid, StatedStatus, past, entries[..0]);
      perTarget := map[];
      ghost var part: map<Id, U64> := map[];
      StartPartly(behaviors, IdOf, past, part);
      NothingCounted(part, IdOf);
      NothingCounted(perTarget, TargetOf);
      for i := 0 to |entries|
        invariant TracksPartly(behaviors, IdOf, past, part)
        invariant CountsPrefix(part, IdOf, entries[..i]) && CountsPrefix(perTarget, TargetOf, entries[..i])
        invariant TotalsWith(http429, RateLimited, past, entries[..i]) && TotalsWith(httpSaid, StatedStatus, past, entries[..i])
      {
        var e := entries[i];
        assert entries[..i + 1] == entries[..i] + [e];
        if e.observations == 0 {
          CountsSkip(part, IdOf, entries[..i], e);
          CountsSkip(perTarget, TargetOf, entries[..i], e);
          TotalsSkip(http429, RateLimited, past, entries, i);
          TotalsSkip(httpSaid, StatedStatus, past, entries, i);
          continue;
        }
        NotYetCounted(part, entries, i);
        CountsOneMore(part, IdOf, entries[..i], e);
        CountsOneMore(perTarget, TargetOf, entries[..i], e);
        CallsInGrows(IdOf, IdOf(e), entries, i + 1);
        CallsInGrows(TargetOf, TargetOf(e), entries, i + 1);
        TotalTooBig(IdOf, IdOf(e), past, entries, e.observations);
        TotalTooBig(TargetOf, TargetOf(e), past, entries, CountAt(perTarget, TargetOf(e)) + e.observations);
        var counted := CountBehavior(e, past, part);
        if !counted {
          return false, perTarget;
        }
        part := part[e.fingerprintId := e.observations];
        var sum := AddCount(CountAt(perTarget, TargetOf(e)), e.observations);
        if sum.None? {
          return false, perTarget;
        }
        perTarget := perTarget[TargetOf(e) := sum.value];
        var stated := CountStatuses(entries, i, past);
        if !stated {
          return false, perTarget;
        }
      }
      assert entries[..|entries|] == entries;
      TotalsEnd(http429, RateLimited, past, entries);
      TotalsEnd(httpSaid, StatedStatus, past, entries);
      CountsMeanCalls(part, IdOf, entries);
      FinishPartly(behaviors, IdOf, past, part, entries);
      ok := true;
    }

    /** One target of the run: its accumulator, and its name's calls so far. */
    method CountTarget(t: Target, calls: U64, perName: map<string, U64>, ghost part: map<Target, U64>, ghost perTarget: map<Target, U64>,
                       ghost left: set<Target>, ghost entries: seq<BehaviorEntry>, ghost past: seq<seq<BehaviorEntry>>)
      returns (ok: bool, nextName: map<string, U64>)
      requires TracksPartly(targets, TargetOf, past, part) && |past| < MAX_UINT64 && CountsPrefix(perTarget, TargetOf, entries)
      requires PartOf(part, perTarget, left) && t in left && calls == CallsIn(TargetOf, t, entries) > 0
      requires NamesFrom(perName, perTarget.Keys - left, entries)
      modifies this`targets
      ensures ok ==> TracksPartly(targets, TargetOf, past, part[t := calls])
      ensures ok ==> NamesFrom(nextName, perTarget.Keys - (left - {t}), entries)
      ensures !ok ==> !FrequencyFits(past + [entries])
    {
      hide TracksPartly, CountsPrefix, SumOf, PerRun, CallsIn, NamesFrom, ClassTotal, AddCalls, PartOf;
      nextName := perName;
      PartExcludes(part, perTarget, left, t);
      CountKey(targets, TargetOf, past, part, t, calls);
      TotalTooBig(TargetOf, t, past, entries, calls);
      ghost var done := perTarget.Keys - left;
      assert perTarget.Keys - (left - {t}) == done + {t};
      NamesOneMore(perName, done, t, entries);
      ClassTotalGrows(Only(Calls, NameOf, t.name), TargetOf, done + {t}, perTarget.Keys, entries);
      NameCovered(perTarget, t.name, entries);
      TotalTooBig(NameOf, t.name, past, entries, CountAt(perName, t.name) + calls);
      var next := AddCalls(AccumulatorAt(targets, t), calls);
      if next.None? {
        return false, perName;
      }
      targets := targets[t := next.value];
      var sum := AddCount(CountAt(perName, t.name), calls);
      if sum.None? {
        return false, perName;
      }
      nextName := perName[t.name := sum.value];
      ok := true;
    }

    /** The loop over the run's targets, in map order: each is one run of its accumulator, and names gather across
        categories. */
    method CountTargets(perTarget: map<Target, U64>, ghost entries: seq<BehaviorEntry>, ghost past: seq<seq<BehaviorEntry>>)
      returns (ok: bool, perName: map<string, U64>)
      requires Tracks(targets, TargetOf, past) && |past| < MAX_UINT64 && CountsPrefix(perTarget, TargetOf, entries)
      modifies this`targets
      ensures ok ==> Tracks(targets, TargetOf, past + [entries]) && CountsPrefix(perName, NameOf, entries)
      ensures !ok ==> !FrequencyFits(past + [entries])
    {
      hide TracksPartly, Tracks, CountsPrefix, CallsIn, NamesFrom, PartOf, FrequencyFits;
      perName := map[];
      ghost var part: map<Target, U64> := map[];
      var left := perTarget.Keys;
      StartPartly(targets, TargetOf, past, part);
      PartStarts(part, perTarget);
      NoNamesYet(perName, entries);
      assert perTarget.Keys - left == {};
      while left != {}
        invariant left <= perTarget.Keys && PartOf(part, perTarget, left)
        invariant TracksPartly(targets, TargetOf, past, part)
        invariant NamesFrom(perName, perTarget.Keys - left, entries)
        decreases |left|
      {
        var t :| t in left;
        CountedIs(perTarget, TargetOf, entries, t);
        PartGrows(part, perTarget, left, t);
        var counted;
        counted, perName := CountTarget(t, perTarget[t], perName, part, perTarget, left, entries, past);
        if !counted {
          return false, perName;
        }
        part := part[t := perTarget[t]];
        left := left - {t};
      }
      PartDone(part, perTarget);
      CountsMeanCalls(perTarget, TargetOf, entries);
      FinishPartly(targets, TargetOf, past, part, entries);
      assert perTarget.Keys - {} == perTarget.Keys;
      NamesDone(perName, perTarget, entries);
      ok := true;
    }

    method CountNames(perName: map<string, U64>, ghost entries: seq<BehaviorEntry>, ghost past: seq<seq<BehaviorEntry>>) returns (ok: bool)
      requires Tracks(byName, NameOf, past) && |past| < MAX_UINT64 && CountsPrefix(perName, NameOf, entries)
      modifies this`byName
      ensures ok ==> Tracks(byName, NameOf, past + [entries])
      ensures !ok ==> !FrequencyFits(past + [entries])
    {
      hide TracksPartly, Tracks, CountsPrefix, SumOf, PerRun, CallsIn, AddCalls, PartOf;
      ghost var part: map<string, U64> := map[];
      var left := perName.Keys;
      StartPartly(byName, NameOf, past, part);
      PartStarts(part, perName);
      while left != {}
        invariant left <= perName.Keys && PartOf(part, perName, left)
        invariant TracksPartly(byName, NameOf, past, part)
        decreases |left|
      {
        var n :| n in left;
        var calls := perName[n];
        CountedIs(perName, NameOf, entries, n);
        PartGrows(part, perName, left, n);
        CountKey(byName, NameOf, past, part, n, calls);
        TotalTooBig(NameOf, n, past, entries, calls);
        var next := AddCalls(AccumulatorAt(byName, n), calls);
        if next.None? {
          return false;
        }
        byName := byName[n := next.value];
        part := part[n := calls];
        left := left - {n};
      }
      PartDone(part, perName);
      CountsMeanCalls(perName, NameOf, entries);
      FinishPartly(byName, NameOf, past, part, entries);
      ok := true;
    }

    /** Folds one completed run in. It is refused exactly when the calls of some behavior, target or name, or a status count of
        some target, over all the runs no longer fit 64 bits; otherwise every figure stands for one run more, in whatever order the maps are walked. */
    method AddRun(entries: seq<BehaviorEntry>, ghost past: seq<seq<BehaviorEntry>>) returns (ok: bool)
      requires StandsFor(past) && |past| < MAX_UINT64 && DistinctFingerprints(entries)
      modifies this
      ensures ok <==> FrequencyFits(past + [entries])
      ensures ok ==> StandsFor(past + [entries])
    {
      hide Tracks, CountsPrefix, FrequencyFits, TotalsAre, StatedStatus, RateLimited;
      runs := Increment(runs);
      var counted, perTarget := CountEntries(entries, past);
      if !counted {
        return false;
      }
      var perName;
      counted, perName := CountTargets(perTarget, entries, past);
      if !counted {
        return false;
      }
      counted := CountNames(perName, entries, past);
      if !counted {
        return false;
      }
      StandingFits(behaviors, targets, byName, http429, httpSaid, past + [entries]);
      ok := true;
    }
  }

  lemma StandingFits(behaviors: map<Id, Accumulator>, targets: map<Target, Accumulator>, byName: map<string, Accumulator>,
                     http429: map<Target, U64>, httpSaid: map<Target, U64>, runs: seq<seq<BehaviorEntry>>)
    requires Tracks(behaviors, IdOf, runs) && Tracks(targets, TargetOf, runs) && Tracks(byName, NameOf, runs)
    requires TotalsAre(http429, RateLimited, runs) && TotalsAre(httpSaid, StatedStatus, runs)
    ensures FrequencyFits(runs)
  {
    hide PerRun, SumOf, TargetTotal;
    TotalsAreFit(http429, RateLimited, runs);
    TotalsAreFit(httpSaid, StatedStatus, runs);
    forall id ensures SumOf(PerRun(IdOf, id, runs)) <= MAX_UINT64 {
      assert TracksKey(behaviors, id, PerRun(IdOf, id, runs));
    }
    forall t ensures SumOf(PerRun(TargetOf, t, runs)) <= MAX_UINT64 {
      assert TracksKey(targets, t, PerRun(TargetOf, t, runs));
    }
    forall n ensures SumOf(PerRun(NameOf, n, runs)) <= MAX_UINT64 {
      assert TracksKey(byName, n, PerRun(NameOf, n, runs));
    }
  }

  lemma TotalsAreFit(m: map<Target, U64>, w: BehaviorEntry -> nat, runs: seq<seq<BehaviorEntry>>)
    requires TotalsAre(m, w, runs)
    ensures TotalsFitTargets(w, runs)
  {
    hide TargetTotal;
    forall t ensures TargetTotal(w, t, runs) <= MAX_UINT64 {
      assert CountAt(m, t) == TargetTotal(w, t, runs);
    }
  }

  // ---- Conservation over a side -------------------------------------------------------------------------------

  /** All the calls some accumulators hold. */
  ghost function Accumulated<K>(m: map<K, Accumulator>, keys: set<K>): nat
    requires keys <= m.Keys
    decreases |keys|
  {
    if keys == {} then 0
    else
      var k :| k in keys;
      m[k].total + Accumulated(m, keys - {k})
  }

  /** The groups' calls, run by run. */
  ghost function GroupTotals<K>(g: BehaviorEntry -> K, keys: set<K>, runs: seq<seq<BehaviorEntry>>): nat {
    if runs == [] then 0 else GroupTotals(g, keys, runs[..|runs| - 1]) + ClassTotal(Calls, g, keys, runs[|runs| - 1])
  }

  /** Every call of every run. */
  function AllCalls(runs: seq<seq<BehaviorEntry>>): nat {
    if runs == [] then 0 else AllCalls(runs[..|runs| - 1]) + SumBy(Calls, runs[|runs| - 1])
  }

  lemma {:induction false} GroupTotalsAt<K>(g: BehaviorEntry -> K, keys: set<K>, runs: seq<seq<BehaviorEntry>>, k: K)
    requires k in keys
    ensures GroupTotals(g, keys, runs) == SumOf(PerRun(g, k, runs)) + GroupTotals(g, keys - {k}, runs)
  {
    hide ClassTotal, SumBy;
    if runs != [] {
      var init, run := runs[..|runs| - 1], runs[|runs| - 1];
      assert runs == init + [run];
      GroupTotalsAt(g, keys, init, k);
      ClassTotalAt(Calls, g, keys, run, k);
      FitsKey(g, k, init, run);
    }
  }

  lemma {:induction false} NoGroupTotals<K>(g: BehaviorEntry -> K, keys: set<K>, runs: seq<seq<BehaviorEntry>>)
    requires keys == {}
    ensures GroupTotals(g, keys, runs) == 0
  {
    if runs != [] {
      NoGroupTotals(g, keys, runs[..|runs| - 1]);
    }
  }

  lemma {:induction false} AccumulatedIsGroups<K(!new)>(m: map<K, Accumulator>, g: BehaviorEntry -> K, keys: set<K>, runs: seq<seq<BehaviorEntry>>)
    requires Tracks(m, g, runs) && keys <= m.Keys
    ensures Accumulated(m, keys) == GroupTotals(g, keys, runs)
    decreases |keys|
  {
    hide GroupTotals, PerRun, SumOf, Tracks;
    if keys == {} {
      NoGroupTotals(g, keys, runs);
    } else {
      var k :| k in keys && Accumulated(m, keys) == m[k].total + Accumulated(m, keys - {k});
      AccumulatedIsGroups(m, g, keys - {k}, runs);
      GroupTotalsAt(g, keys, runs, k);
      TrackedTotal(m, g, runs, k);
    }
  }

  lemma TrackedTotal<K(!new)>(m: map<K, Accumulator>, g: BehaviorEntry -> K, runs: seq<seq<BehaviorEntry>>, k: K)
    requires Tracks(m, g, runs)
    ensures k in m ==> m[k].total == SumOf(PerRun(g, k, runs))
    ensures k !in m ==> PresentIn(PerRun(g, k, runs)) == 0
  {
    hide PerRun, SumOf;
    assert TracksKey(m, k, PerRun(g, k, runs));
  }

  lemma {:induction false} UncalledSum(calls: seq<nat>)
    requires PresentIn(calls) == 0
    ensures SumOf(calls) == 0
  {
    if calls != [] {
      UncalledSum(calls[..|calls| - 1]);
    }
  }

  /** Every key called in some run has an accumulator. */
  ghost predicate Covers<K(!new)>(keys: set<K>, g: BehaviorEntry -> K, runs: seq<seq<BehaviorEntry>>) {
    forall k :: k !in keys ==> SumOf(PerRun(g, k, runs)) == 0
  }

  lemma TracksCovers<K(!new)>(m: map<K, Accumulator>, g: BehaviorEntry -> K, runs: seq<seq<BehaviorEntry>>)
    requires Tracks(m, g, runs)
    ensures Covers(m.Keys, g, runs)
  {
    hide PerRun, SumOf, Tracks;
    forall k ensures k !in m.Keys ==> SumOf(PerRun(g, k, runs)) == 0 {
      TrackedTotal(m, g, runs, k);
      if k !in m {
        UncalledSum(PerRun(g, k, runs));
      }
    }
  }

  lemma {:induction false} CalledGroup<K>(g: BehaviorEntry -> K, run: seq<BehaviorEntry>, e: BehaviorEntry)
    requires e in run
    ensures CallsIn(g, g(e), run) >= e.observations
  {
    hide CallsIn;
    var i :| 0 <= i < |run| && run[i] == e;
    CallsInSnoc(g, g(e), run[..i], e);
    assert run[..i + 1] == run[..i] + [e];
    CallsInGrows(g, g(e), run, i + 1);
  }

  lemma CoveredBefore<K(!new)>(keys: set<K>, g: BehaviorEntry -> K, init: seq<seq<BehaviorEntry>>, run: seq<BehaviorEntry>)
    requires Covers(keys, g, init + [run])
    ensures Covers(keys, g, init)
    ensures forall e | e in run :: Calls(e) > 0 ==> g(e) in keys
  {
    hide PerRun, SumOf, CallsIn;
    forall k ensures k !in keys ==> SumOf(PerRun(g, k, init)) == 0 {
      FitsKey(g, k, init, run);
    }
    forall e | e in run ensures Calls(e) > 0 ==> g(e) in keys {
      FitsKey(g, g(e), init, run);
      CalledGroup(g, run, e);
    }
  }

  lemma {:induction false} CoveredGroupsAddUp<K(!new)>(g: BehaviorEntry -> K, keys: set<K>, runs: seq<seq<BehaviorEntry>>)
    requires Covers(keys, g, runs)
    ensures GroupTotals(g, keys, runs) == AllCalls(runs)
  {
    hide Covers, ClassTotal, SumBy, Calls;
    if runs != [] {
      var init, run := runs[..|runs| - 1], runs[|runs| - 1];
      assert runs == init + [run];
      CoveredBefore(keys, g, init, run);
      CoveredGroupsAddUp(g, keys, init);
      GroupsAddUp(Calls, g, keys, run);
    }
  }

  lemma AccumulatedIsAll<K(!new)>(m: map<K, Accumulator>, g: BehaviorEntry -> K, runs: seq<seq<BehaviorEntry>>)
    requires Tracks(m, g, runs)
    ensures Accumulated(m, m.Keys) == AllCalls(runs)
  {
    hide Tracks, Covers, GroupTotals, AllCalls;
    TracksCovers(m, g, runs);
    AccumulatedIsGroups(m, g, m.Keys, runs);
    CoveredGroupsAddUp(g, m.Keys, runs);
  }

  /** After any sequence of runs a side's three accounts hold the same calls, which are all the calls of those runs. */
  lemma CallsAreConserved(s: FrequencySide, runs: seq<seq<BehaviorEntry>>)
    requires s.StandsFor(runs)
    ensures Accumulated(s.behaviors, s.behaviors.Keys) == Accumulated(s.targets, s.targets.Keys) == Accumulated(s.byName, s.byName.Keys)
            == AllCalls(runs)
  {
    hide Tracks, Accumulated, TotalsAre;
    AccumulatedIsAll(s.behaviors, IdOf, runs);
    AccumulatedIsAll(s.targets, TargetOf, runs);
    AccumulatedIsAll(s.byName, NameOf, runs);
  }

  lemma NothingCounted<K(!new)>(none: map<K, U64>, g: BehaviorEntry -> K)
    requires none == map[]
    ensures CountsPrefix(none, g, [])
  {
  }

  lemma NotYetCounted(part: map<Id, U64>, entries: seq<BehaviorEntry>, i: nat)
    requires i < |entries| && DistinctFingerprints(entries) && CountsPrefix(part, IdOf, entries[..i])
    ensures entries[i].fingerprintId !in part && CountAt(part, entries[i].fingerprintId) == 0
  {
    hide CallsIn;
    UncalledId(entries[..i], entries[i].fingerprintId);
    assert CountAt(part, entries[i].fingerprintId) == CallsIn(IdOf, entries[i].fingerprintId, entries[..i]);
  }

  // ---- What is counted of an entry ----------------------------------------------------------------------------

  /** A run's calls of one behavior, to one target, and to one target name in any category. */
  function BehaviorCalls(id: Id, run: seq<BehaviorEntry>): nat {
    if run == [] then 0
    else BehaviorCalls(id, run[..|run| - 1]) + (if run[|run| - 1].fingerprintId == id then run[|run| - 1].observations else 0)
  }

  function TargetCalls(name: string, category: TargetCategory, run: seq<BehaviorEntry>): nat {
    if run == [] then 0
    else
      var b := run[|run| - 1].behavior;
      TargetCalls(name, category, run[..|run| - 1])
      + (if b.targetName == name && b.targetCategory == category then run[|run| - 1].observations else 0)
  }

  function NameCalls(name: string, run: seq<BehaviorEntry>): nat {
    if run == [] then 0
    else NameCalls(name, run[..|run| - 1]) + (if run[|run| - 1].behavior.targetName == name then run[|run| - 1].observations else 0)
  }

  lemma {:induction false} CallsAre(id: Id, name: string, category: TargetCategory, run: seq<BehaviorEntry>)
    ensures CallsIn(IdOf, id, run) == BehaviorCalls(id, run)
    ensures CallsIn(TargetOf, Target(name, category), run) == TargetCalls(name, category, run)
    ensures CallsIn(NameOf, name, run) == NameCalls(name, run)
  {
    if run != [] {
      hide CallsIn;
      var init, e := run[..|run| - 1], run[|run| - 1];
      assert run == init + [e];
      CallsAre(id, name, category, init);
      CallsInSnoc(IdOf, id, init, e);
      CallsInSnoc(TargetOf, Target(name, category), init, e);
      CallsInSnoc(NameOf, name, init, e);
    }
  }

  /** A run's 429s and stated status codes of one target, over the entries that were called. */
  function Target429s(t: Target, run: seq<BehaviorEntry>): nat {
    if run == [] then 0
    else
      var e := run[|run| - 1];
      Target429s(t, run[..|run| - 1])
      + (if e.observations > 0 && e.behavior.targetName == t.name && e.behavior.targetCategory == t.category then e.operational.http429 else 0)
  }

  function TargetStated(t: Target, run: seq<BehaviorEntry>): nat {
    if run == [] then 0
    else
      var e := run[|run| - 1];
      TargetStated(t, run[..|run| - 1])
      + (if e.observations > 0 && e.behavior.targetName == t.name && e.behavior.targetCategory == t.category
            && e.operational.httpStatus.unavailable <= e.observations
         then e.observations - e.operational.httpStatus.unavailable else 0)
  }

  ghost predicate CodesAccount(run: seq<BehaviorEntry>) {
    forall k | 0 <= k < |run| :: ValidHttp(run[k].operational.httpStatus, run[k].operational.http429, run[k].observations)
  }

  lemma StatedIs(e: BehaviorEntry)
    requires ValidHttp(e.operational.httpStatus, e.operational.http429, e.observations)
    ensures StatedStatus(e) == e.observations - e.operational.httpStatus.unavailable
    ensures RateLimited(e) == (if e.observations > 0 then e.operational.http429 else 0)
    ensures e.operational.httpStatus.unavailable <= e.observations
  {
    SmallModulus(e.observations - e.operational.httpStatus.unavailable);
  }

  lemma SmallModulus(n: int)
    requires 0 <= n <= MAX_UINT64
    ensures n % TWO_TO_THE_64 == n
  {
  }

  /** On valid entries the two status sums of a target are its 429s and the observations that stated any code. */
  lemma {:induction false} StatusesAre(t: Target, run: seq<BehaviorEntry>)
    requires CodesAccount(run)
    ensures TargetSum(RateLimited, t, run) == Target429s(t, run) && TargetSum(StatedStatus, t, run) == TargetStated(t, run)
  {
    hide StatedStatus, RateLimited, ValidHttp;
    if run != [] {
      var init, e := run[..|run| - 1], run[|run| - 1];
      assert run == init + [e];
      StatusesAre(t, init);
      TargetSumSnoc(RateLimited, t, init, e);
      TargetSumSnoc(StatedStatus, t, init, e);
      if e.observations > 0 {
        StatedIs(e);
      } else {
        NotCalled(e);
      }
    }
  }

  lemma NotCalled(e: BehaviorEntry)
    requires e.observations == 0
    ensures RateLimited(e) == 0 && StatedStatus(e) == 0
  {
  }
}
