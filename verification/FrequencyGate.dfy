/** platform/frequency_gate.go: the four optional checks over repeated runs, each absent, deferred or evaluated. */
module FrequencyGate {
  import opened Bounded
  import opened Ordering
  import opened Aggregate
  import opened Collector
  import opened Cost
  import opened Frequency

  datatype TargetCallLimit = TargetCallLimit(target: string, max: U64)

  datatype TargetCallOutcome = TargetPass | TargetFail | TargetNotObserved

  datatype TargetCallCheck = TargetCallCheck(target: string, actual: U64, max: U64, outcome: TargetCallOutcome)

  datatype Missing =
    | NoRepetition(reference: bool, candidate: bool)
    | NothingAlwaysPresent
    | NoModelLayer(first: string, lacking: nat)

  datatype Check =
    | NotEvaluated
    | Deferred(missing: Missing)
    | Evaluated(actual: U64, bound: U64, passed: bool)
    | EvaluatedTargets(targets: seq<TargetCallCheck>, passed: bool)

  /** One behavior's presence over the repetitions of both sides. */
  datatype RunPresence = RunPresence(referenceRunsPresent: U64, candidateRunsPresent: U64)

  datatype LayerEvidence = LayerEvidence(runId: string, modelCalls: U64)

  datatype Limits = Limits(
    minCandidateFrequency: Option<U64>, maxLost: Option<U64>, maxCalls: Option<seq<TargetCallLimit>>, maxLlmCalls: Option<U64>)

  datatype Inputs = Inputs(
    runs: U64, referenceRuns: U64, candidateRuns: U64, behaviors: seq<RunPresence>,
    referenceByName: map<string, Accumulator>, candidateByName: map<string, Accumulator>, layers: seq<LayerEvidence>)

  predicate FailsVerdict(c: Check) {
    match c
    case NotEvaluated => false
    case Deferred(_) => true
    case Evaluated(_, _, passed) => !passed
    case EvaluatedTargets(_, passed) => !passed
  }

  predicate SideMissing(i: Inputs) {
    i.referenceRuns == 0 || i.candidateRuns == 0
  }

  // ---- Presence checks ----------------------------------------------------------------------------------------

  predicate AlwaysPresent(i: Inputs, b: RunPresence) {
    b.referenceRunsPresent == i.runs
  }

  /** The check fails the verdict exactly when a side is missing, nothing was always present, or something always present
      in the reference is present in too few candidate runs. */
  method MinCandidateFrequency(minimum: U64, i: Inputs) returns (c: Check)
    ensures !FailsVerdict(c) <==>
            && !SideMissing(i) && (exists b :: b in i.behaviors && AlwaysPresent(i, b))
            && forall b | b in i.behaviors && AlwaysPresent(i, b) :: b.candidateRunsPresent >= minimum
    ensures c.Evaluated? ==> c.bound == minimum && exists b :: b in i.behaviors && AlwaysPresent(i, b) && b.candidateRunsPresent == c.actual
    ensures c.Evaluated? ==> forall b | b in i.behaviors && AlwaysPresent(i, b) :: c.actual <= b.candidateRunsPresent
    ensures c.Evaluated? || c.Deferred?
  {
    var lowest: U64, qualifying := 0, false;
    for k := 0 to |i.behaviors|
      invariant qualifying <==> exists j :: 0 <= j < k && AlwaysPresent(i, i.behaviors[j])
      invariant qualifying ==> exists j :: 0 <= j < k && AlwaysPresent(i, i.behaviors[j]) && i.behaviors[j].candidateRunsPresent == lowest
      invariant forall j | 0 <= j < k && AlwaysPresent(i, i.behaviors[j]) :: lowest <= i.behaviors[j].candidateRunsPresent
    {
      var b := i.behaviors[k];
      if b.referenceRunsPresent != i.runs {
        continue;
      }
      if !qualifying || b.candidateRunsPresent < lowest {
        lowest := b.candidateRunsPresent;
      }
      qualifying := true;
    }
    if SideMissing(i) {
      return Deferred(NoRepetition(i.referenceRuns == 0, i.candidateRuns == 0));
    }
    if !qualifying {
      return Deferred(NothingAlwaysPresent);
    }
    c := Evaluated(lowest, minimum, lowest >= minimum);
  }

  /** In every reference repetition, and missing from some candidate one. */
  predicate Lost(b: RunPresence, runs: U64) {
    IsLost(b.referenceRunsPresent, b.candidateRunsPresent, runs)
  }

  function LostIn(behaviors: seq<RunPresence>, runs: U64): nat {
    if behaviors == [] then 0 else LostIn(behaviors[..|behaviors| - 1], runs) + (if Lost(behaviors[|behaviors| - 1], runs) then 1 else 0)
  }

  method MaxLostBehaviors(maximum: U64, i: Inputs) returns (c: Check)
    requires |i.behaviors| <= MAX_UINT64
    ensures !FailsVerdict(c) <==> !SideMissing(i) && LostIn(i.behaviors, i.runs) <= maximum
    ensures c.Evaluated? ==> c.actual == LostIn(i.behaviors, i.runs) && c.bound == maximum
    ensures c.Evaluated? || c.Deferred?
  {
    if SideMissing(i) {
      return Deferred(NoRepetition(i.referenceRuns == 0, i.candidateRuns == 0));
    }
    var lost: U64 := 0;
    for k := 0 to |i.behaviors|
      invariant lost == LostIn(i.behaviors[..k], i.runs) <= k
    {
      assert i.behaviors[..k + 1][..k] == i.behaviors[..k];
      if Lost(i.behaviors[k], i.runs) {
        lost := lost + 1;
      }
    }
    assert i.behaviors[..|i.behaviors|] == i.behaviors;
    c := Evaluated(lost, maximum, lost <= maximum);
  }

  // ---- Call limits --------------------------------------------------------------------------------------------

  /** The name was called in some run. */
  ghost predicate CalledIn(name: string, runs: seq<seq<BehaviorEntry>>) {
    exists k :: 0 <= k < |runs| && CallsIn(NameOf, name, runs[k]) > 0
  }

  lemma {:induction false} PerRunAt(name: string, runs: seq<seq<BehaviorEntry>>, k: nat)
    requires k < |runs|
    ensures PerRun(NameOf, name, runs)[k] == CallsIn(NameOf, name, runs[k])
  {
    if k < |runs| - 1 {
      PerRunAt(name, runs[..|runs| - 1], k);
    }
  }

  lemma CalledMeans(name: string, runs: seq<seq<BehaviorEntry>>)
    ensures CalledIn(name, runs) <==> PresentIn(PerRun(NameOf, name, runs)) > 0
  {
    hide CallsIn, PerRun;
    PresentBound(PerRun(NameOf, name, runs));
    forall k | 0 <= k < |runs| ensures PerRun(NameOf, name, runs)[k] == CallsIn(NameOf, name, runs[k]) {
      PerRunAt(name, runs, k);
    }
  }

  /** What one limit's outcome means over the true per-run calls, across categories. */
  ghost predicate OutcomeIsTrue(check: TargetCallCheck, reference: seq<seq<BehaviorEntry>>, candidate: seq<seq<BehaviorEntry>>) {
    && (check.outcome == TargetNotObserved <==> !CalledIn(check.target, reference) && !CalledIn(check.target, candidate))
    && (check.outcome != TargetNotObserved ==> IsMostOf(PerRun(NameOf, check.target, candidate), check.actual))
    && (check.outcome == TargetPass <==>
        (CalledIn(check.target, reference) || CalledIn(check.target, candidate))
        && forall k | 0 <= k < |candidate| :: CallsIn(NameOf, check.target, candidate[k]) <= check.max)
  }

  lemma MostDecides(name: string, candidate: seq<seq<BehaviorEntry>>, actual: nat, bound: nat)
    requires IsMostOf(PerRun(NameOf, name, candidate), actual)
    ensures actual <= bound <==> forall k | 0 <= k < |candidate| :: CallsIn(NameOf, name, candidate[k]) <= bound
  {
    hide CallsIn, PerRun;
    forall k | 0 <= k < |candidate| ensures PerRun(NameOf, name, candidate)[k] == CallsIn(NameOf, name, candidate[k]) {
      PerRunAt(name, candidate, k);
    }
    if candidate != [] {
      var k :| 0 <= k < |candidate| && PerRun(NameOf, name, candidate)[k] == actual;
    }
  }

  /** An accumulator's largest run, or zero where the name was never called. */
  lemma MostIs(byName: map<string, Accumulator>, name: string, runs: seq<seq<BehaviorEntry>>)
    requires Tracks(byName, NameOf, runs) && runs != []
    ensures IsMostOf(PerRun(NameOf, name, runs), AccumulatorAt(byName, name).max)
    ensures name in byName <==> CalledIn(name, runs)
  {
    hide Represents, PerRun, IsMostOf, CalledIn, PresentIn, IsLeastOf;
    assert TracksKey(byName, name, PerRun(NameOf, name, runs));
    LeastIs(AccumulatorAt(byName, name), PerRun(NameOf, name, runs));
    CalledMeans(name, runs);
  }

  lemma KnownIsCalled(byName: map<string, Accumulator>, name: string, runs: seq<seq<BehaviorEntry>>)
    requires Tracks(byName, NameOf, runs)
    ensures name in byName <==> CalledIn(name, runs)
  {
    hide Represents, PerRun, CalledIn, PresentIn;
    assert TracksKey(byName, name, PerRun(NameOf, name, runs));
    CalledMeans(name, runs);
  }

  method CheckTarget(limit: TargetCallLimit, i: Inputs, ghost reference: seq<seq<BehaviorEntry>>, ghost candidate: seq<seq<BehaviorEntry>>)
    returns (check: TargetCallCheck)
    requires Tracks(i.referenceByName, NameOf, reference) && Tracks(i.candidateByName, NameOf, candidate) && candidate != []
    ensures check.target == limit.target && check.max == limit.max && OutcomeIsTrue(check, reference, candidate)
  {
    hide Tracks, IsMostOf, CalledIn, CallsIn, PerRun;
    KnownIsCalled(i.referenceByName, limit.target, reference);
    MostIs(i.candidateByName, limit.target, candidate);
    var called, referenced := limit.target in i.candidateByName, limit.target in i.referenceByName;
    if !called && !referenced {
      return TargetCallCheck(limit.target, 0, limit.max, TargetNotObserved);
    }
    var actual := if called then i.candidateByName[limit.target].max else 0;
    MostDecides(limit.target, candidate, actual, limit.max);
    check := TargetCallCheck(limit.target, actual, limit.max, if actual > limit.max then TargetFail else TargetPass);
  }

  /** The limit holds of every candidate run and names something either side called. */
  ghost predicate LimitHolds(limit: TargetCallLimit, reference: seq<seq<BehaviorEntry>>, candidate: seq<seq<BehaviorEntry>>) {
    && (CalledIn(limit.target, reference) || CalledIn(limit.target, candidate))
    && forall k | 0 <= k < |candidate| :: CallsIn(NameOf, limit.target, candidate[k]) <= limit.max
  }

  /** The call-limit check reads the true per-run maximum of each name over its categories: it passes exactly when a
      candidate run exists and every limit holds of every candidate run. */
  method MaxCallsPerRun(limits: seq<TargetCallLimit>, i: Inputs, ghost reference: seq<seq<BehaviorEntry>>, ghost candidate: seq<seq<BehaviorEntry>>)
    returns (c: Check)
    requires Tracks(i.referenceByName, NameOf, reference) && Tracks(i.candidateByName, NameOf, candidate)
    requires i.candidateRuns == |candidate|
    ensures !FailsVerdict(c) <==> candidate != [] && forall k | 0 <= k < |limits| :: LimitHolds(limits[k], reference, candidate)
    ensures c.EvaluatedTargets? ==> |c.targets| == |limits| && forall k | 0 <= k < |limits| :: OutcomeIsTrue(c.targets[k], reference, candidate)
    ensures c.EvaluatedTargets? || c.Deferred?
  {
    hide Tracks, IsMostOf, CalledIn, CallsIn, PerRun;
    if i.candidateRuns == 0 {
      return Deferred(NoRepetition(false, true));
    }
    var checks: seq<TargetCallCheck> := [];
    var passed := true;
    for k := 0 to |limits|
      invariant |checks| == k && forall j | 0 <= j < k :: OutcomeIsTrue(checks[j], reference, candidate)
      invariant passed <==> forall j | 0 <= j < k :: LimitHolds(limits[j], reference, candidate)
    {
      var check := CheckTarget(limits[k], i, reference, candidate);
      if check.outcome != TargetPass {
        passed := false;
      }
      checks := checks + [check];
    }
    c := EvaluatedTargets(checks, passed);
  }

  // ---- Model calls --------------------------------------------------------------------------------------------

  function ModelCalls(e: BehaviorEntry): nat {
    e.fidelity.layerModel
  }

  /** layerEvidenceOf: the run's model-layer observations, refused exactly when they do not fit 64 bits. */
  method LayerEvidenceOf(runId: string, entries: seq<BehaviorEntry>) returns (r: Option<LayerEvidence>)
    ensures r.Some? <==> SumBy(ModelCalls, entries) <= MAX_UINT64
    ensures r.Some? ==> r.value == LayerEvidence(runId, SumBy(ModelCalls, entries))
  {
    hide SumBy;
    var total: U64 := 0;
    NoModelCalls();
    for i := 0 to |entries|
      invariant total == SumBy(ModelCalls, entries[..i])
    {
      assert entries[..i + 1] == entries[..i] + [entries[i]];
      SumBySnoc(ModelCalls, entries[..i], entries[i]);
      assert entries == entries[..i + 1] + entries[i + 1..];
      SumByConcat(ModelCalls, entries[..i + 1], entries[i + 1..]);
      var next := AddCount(total, entries[i].fidelity.layerModel);
      if next.None? {
        return None;
      }
      total := next.value;
    }
    assert entries[..|entries|] == entries;
    r := Some(LayerEvidence(runId, total));
  }

  lemma NoModelCalls()
    ensures SumBy(ModelCalls, []) == 0
  {
  }

  predicate Invisible(l: LayerEvidence) {
    l.modelCalls == 0
  }

  ghost predicate IsFirstInvisible(layers: seq<LayerEvidence>, id: string) {
    && (exists k :: 0 <= k < |layers| && Invisible(layers[k]) && layers[k].runId == id)
    && forall k | 0 <= k < |layers| && Invisible(layers[k]) :: id == layers[k].runId || Less(id, layers[k].runId)
  }

  function InvisibleIn(layers: seq<LayerEvidence>): nat {
    if layers == [] then 0 else InvisibleIn(layers[..|layers| - 1]) + (if Invisible(layers[|layers| - 1]) then 1 else 0)
  }

  lemma FirstInvisibleStep(layers: seq<LayerEvidence>, k: nat, first: string, lacking: bool)
    requires k < |layers| && Invisible(layers[k])
    requires lacking ==> IsFirstInvisible(layers[..k], first)
    requires !lacking ==> forall j | 0 <= j < k :: !Invisible(layers[j])
    ensures IsFirstInvisible(layers[..k + 1], if !lacking || Less(layers[k].runId, first) then layers[k].runId else first)
  {
    var next := if !lacking || Less(layers[k].runId, first) then layers[k].runId else first;
    var t := layers[..k + 1];
    assert t[k] == layers[k];
    if lacking {
      LessTotal(layers[k].runId, first);
      var j :| 0 <= j < k && Invisible(layers[..k][j]) && layers[..k][j].runId == first;
      assert t[j] == layers[..k][j];
      forall m | 0 <= m <= k && Invisible(t[m]) ensures next == t[m].runId || Less(next, t[m].runId) {
        if m < k {
          assert t[m] == layers[..k][m];
          if next != first && first != t[m].runId {
            LessTransitive(next, first, t[m].runId);
          }
        }
      }
    } else {
      forall m | 0 <= m <= k && Invisible(t[m]) ensures next == t[m].runId {
        assert t[m] == layers[m];
      }
    }
  }

  ghost predicate LayersSeen(layers: seq<LayerEvidence>, k: nat, lacking: nat, first: string) {
    && k <= |layers| && lacking == InvisibleIn(layers[..k])
    && (lacking == 0 <==> forall j | 0 <= j < k :: !Invisible(layers[j]))
    && (lacking > 0 ==> IsFirstInvisible(layers[..k], first))
  }

  ghost predicate WorstSeen(layers: seq<LayerEvidence>, k: nat, worst: nat) {
    && k <= |layers| && (forall j | 0 <= j < k :: layers[j].modelCalls <= worst)
    && (worst == 0 || exists j :: 0 <= j < k && layers[j].modelCalls == worst)
  }

  lemma WorstStep(layers: seq<LayerEvidence>, k: nat, worst: nat)
    requires k < |layers| && WorstSeen(layers, k, worst)
    ensures WorstSeen(layers, k + 1, if layers[k].modelCalls > worst then layers[k].modelCalls else worst)
  {
  }

  lemma NoLayersSeen(layers: seq<LayerEvidence>, first: string)
    ensures LayersSeen(layers, 0, 0, first)
  {
  }

  lemma AllLayersSeen(layers: seq<LayerEvidence>, lacking: nat, first: string)
    requires LayersSeen(layers, |layers|, lacking, first)
    ensures lacking == InvisibleIn(layers) && (lacking == 0 <==> forall j | 0 <= j < |layers| :: !Invisible(layers[j]))
    ensures lacking > 0 ==> IsFirstInvisible(layers, first)
  {
    assert layers[..|layers|] == layers;
  }

  lemma LayerStep(layers: seq<LayerEvidence>, k: nat, lacking: nat, first: string)
    requires k < |layers| && LayersSeen(layers, k, lacking, first)
    ensures !Invisible(layers[k]) ==> LayersSeen(layers, k + 1, lacking, first)
    ensures Invisible(layers[k]) ==>
              LayersSeen(layers, k + 1, lacking + 1, if lacking == 0 || Less(layers[k].runId, first) then layers[k].runId else first)
  {
    hide IsFirstInvisible;
    assert layers[..k + 1][..k] == layers[..k];
    if Invisible(layers[k]) {
      FirstInvisibleStep(layers, k, first, lacking > 0);
    } else {
      VisibleStep(layers, k, first);
    }
  }

  /** The model-call check passes exactly when there is a candidate run, every one has a model-layer observation and none
      made more model calls than allowed; the run it names when deferred does not depend on how the runs were listed. */
  method MaxLlmCallsPerRun(maximum: U64, i: Inputs) returns (c: Check)
    requires i.candidateRuns == |i.layers|
    ensures !FailsVerdict(c) <==> i.layers != [] && forall k | 0 <= k < |i.layers| :: 1 <= i.layers[k].modelCalls <= maximum
    ensures c.Evaluated? ==> c.actual >= 1
    ensures c.Deferred? && c.missing.NoModelLayer? ==> IsFirstInvisible(i.layers, c.missing.first) && c.missing.lacking == InvisibleIn(i.layers)
    ensures c.Evaluated? || c.Deferred?
  {
    hide LayersSeen, IsFirstInvisible, InvisibleIn;
    var worst: U64, lacking: nat, first := 0, 0, "";
    NoLayersSeen(i.layers, first);
    for k := 0 to |i.layers|
      invariant LayersSeen(i.layers, k, lacking, first) && WorstSeen(i.layers, k, worst)
    {
      LayerStep(i.layers, k, lacking, first);
      WorstStep(i.layers, k, worst);
      var run := i.layers[k];
      if run.modelCalls == 0 {
        if lacking == 0 || Less(run.runId, first) {
          first := run.runId;
        }
        lacking := lacking + 1;
        continue;
      }
      worst := if run.modelCalls > worst then run.modelCalls else worst;
    }
    AllLayersSeen(i.layers, lacking, first);
    if lacking > 0 {
      return Deferred(NoModelLayer(first, lacking));
    }
    if i.candidateRuns == 0 {
      return Deferred(NoRepetition(false, true));
    }
    assert !Invisible(i.layers[0]);
    c := Evaluated(worst, maximum, worst <= maximum);
  }

  lemma VisibleStep(layers: seq<LayerEvidence>, k: nat, first: string)
    requires k < |layers| && !Invisible(layers[k])
    ensures IsFirstInvisible(layers[..k], first) ==> IsFirstInvisible(layers[..k + 1], first)
  {
    if IsFirstInvisible(layers[..k], first) {
      var t := layers[..k + 1];
      var j :| 0 <= j < k && Invisible(layers[..k][j]) && layers[..k][j].runId == first;
      assert t[j] == layers[..k][j];
      forall m | 0 <= m < |t| && Invisible(t[m]) ensures first == t[m].runId || Less(first, t[m].runId) {
        assert t[m] == layers[..k][m];
      }
    }
  }

  // ---- All four checks ----------------------------------------------------------------------------------------

  /** Every limit left unset is not evaluated, and never fails the verdict; every limit set is evaluated or deferred. */
  method EvaluateFrequencyGates(l: Limits, i: Inputs, ghost reference: seq<seq<BehaviorEntry>>, ghost candidate: seq<seq<BehaviorEntry>>)
    returns (checks: seq<Check>)
    requires Tracks(i.referenceByName, NameOf, reference) && Tracks(i.candidateByName, NameOf, candidate)
    requires i.candidateRuns == |candidate| == |i.layers| && |i.behaviors| <= MAX_UINT64
    ensures |checks| == 4
    ensures checks[0].NotEvaluated? <==> l.minCandidateFrequency.None?
    ensures checks[1].NotEvaluated? <==> l.maxLost.None?
    ensures checks[2].NotEvaluated? <==> l.maxCalls.None?
    ensures checks[3].NotEvaluated? <==> l.maxLlmCalls.None?
    ensures (forall k | 0 <= k < 4 :: !FailsVerdict(checks[k])) <==> AllLimitsHold(l, i, reference, candidate)
  {
    hide Tracks, LimitHolds, LostIn, SideMissing;
    var first, second, third, fourth := NotEvaluated, NotEvaluated, NotEvaluated, NotEvaluated;
    if l.minCandidateFrequency.Some? {
      first := MinCandidateFrequency(l.minCandidateFrequency.value, i);
    }
    if l.maxLost.Some? {
      second := MaxLostBehaviors(l.maxLost.value, i);
    }
    if l.maxCalls.Some? {
      third := MaxCallsPerRun(l.maxCalls.value, i, reference, candidate);
    }
    if l.maxLlmCalls.Some? {
      fourth := MaxLlmCallsPerRun(l.maxLlmCalls.value, i);
    }
    checks := [first, second, third, fourth];
    assert (forall k | 0 <= k < 4 :: !FailsVerdict(checks[k])) <==>
           !FailsVerdict(checks[0]) && !FailsVerdict(checks[1]) && !FailsVerdict(checks[2]) && !FailsVerdict(checks[3]);
  }

  /** What a passing verdict over the four checks means. */
  ghost predicate AllLimitsHold(l: Limits, i: Inputs, reference: seq<seq<BehaviorEntry>>, candidate: seq<seq<BehaviorEntry>>) {
    && (l.minCandidateFrequency.Some? ==>
          && !SideMissing(i) && (exists b :: b in i.behaviors && AlwaysPresent(i, b))
          && forall b | b in i.behaviors && AlwaysPresent(i, b) :: b.candidateRunsPresent >= l.minCandidateFrequency.value)
    && (l.maxLost.Some? ==> !SideMissing(i) && LostIn(i.behaviors, i.runs) <= l.maxLost.value)
    && (l.maxCalls.Some? ==> candidate != [] && forall k | 0 <= k < |l.maxCalls.value| :: LimitHolds(l.maxCalls.value[k], reference, candidate))
    && (l.maxLlmCalls.Some? ==>
          i.layers != [] && forall k | 0 <= k < |i.layers| :: 1 <= i.layers[k].modelCalls <= l.maxLlmCalls.value)
  }

  // ---- What the inputs count ----------------------------------------------------------------------------------

  /** The behaviors in every reference repetition and missing from some candidate one. */
  function LostPositions(behaviors: seq<RunPresence>, runs: U64): set<nat> {
    set k: nat | k < |behaviors| && runs > 0 && behaviors[k].referenceRunsPresent == runs && behaviors[k].candidateRunsPresent < runs
  }

  lemma {:induction false} LostAreCounted(behaviors: seq<RunPresence>, runs: U64)
    ensures LostIn(behaviors, runs) == |LostPositions(behaviors, runs)|
  {
    if behaviors == [] {
      assert LostPositions(behaviors, runs) == {};
    } else {
      var init, last := behaviors[..|behaviors| - 1], behaviors[|behaviors| - 1];
      LostAreCounted(init, runs);
      var n := |init|;
      assert LostPositions(behaviors, runs) == if Lost(last, runs) then LostPositions(init, runs) + {n} else LostPositions(init, runs);
      assert n !in LostPositions(init, runs);
    }
  }

  function ModelLayerTotal(entries: seq<BehaviorEntry>): nat {
    if entries == [] then 0 else ModelLayerTotal(entries[..|entries| - 1]) + entries[|entries| - 1].fidelity.layerModel
  }

  lemma {:induction false} ModelCallsAre(entries: seq<BehaviorEntry>)
    ensures SumBy(ModelCalls, entries) == ModelLayerTotal(entries)
  {
    if entries != [] {
      ModelCallsAre(entries[..|entries| - 1]);
    }
  }
}
