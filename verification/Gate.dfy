/** The counting fold applied to a comparison (platform/behavior.go's WithCorrelation) and the acceptance gate over the
    result (platform/gate.go). */
module Gate {
  import opened Bounded
  import opened Ordering
  import opened Operational
  import opened Aggregate
  import opened Collector
  import opened BehaviorOperational
  import opened Evidence
  import opened Conservation
  import opened Graph
  import opened Counting
  import opened Retention
  import opened Diff
  import opened DiffProperties

  // ---- The added identities -----------------------------------------------------------------------------------

  ghost predicate AddedIn(s: seq<BehaviorDelta>, id: Id) {
    exists k :: 0 <= k < |s| && s[k].fingerprintId == id && s[k].presence == BehaviorAdded
  }

  lemma {:induction false} AddedIdentitiesAre(s: seq<BehaviorDelta>)
    ensures |AddedIdentities(s)| == CountPresence(s, BehaviorAdded)
    ensures forall id :: id in AddedIdentities(s) <==> AddedIn(s, id)
  {
    if s != [] {
      var init, last := s[..|s| - 1], s[|s| - 1];
      AddedIdentitiesAre(init);
      forall id ensures id in AddedIdentities(s) <==> AddedIn(s, id) {
        assert id in AddedIdentities(s) <==> id in AddedIdentities(init) || (last.presence == BehaviorAdded && id == last.fingerprintId);
        if AddedIn(s, id) && !(last.presence == BehaviorAdded && id == last.fingerprintId) {
          var k :| 0 <= k < |s| && s[k].fingerprintId == id && s[k].presence == BehaviorAdded;
          assert init[k] == s[k];
        }
        if AddedIn(init, id) {
          var k :| 0 <= k < |init| && init[k].fingerprintId == id && init[k].presence == BehaviorAdded;
          assert s[k] == init[k];
        }
        assert s[|s| - 1] == last;
      }
    }
  }

  lemma {:induction false} AddedIdentitiesAscend(s: seq<BehaviorDelta>)
    requires DeltasAscending(s)
    ensures Ascending(AddedIdentities(s))
  {
    if s != [] {
      var init, last := s[..|s| - 1], s[|s| - 1];
      AddedIdentitiesAscend(init);
      AddedIdentitiesAre(init);
      var a := AddedIdentities(init);
      forall i | 0 <= i < |a| ensures Less(a[i], last.fingerprintId) {
        assert AddedIn(init, a[i]);
        var k :| 0 <= k < |init| && init[k].fingerprintId == a[i] && init[k].presence == BehaviorAdded;
        assert Less(s[k].fingerprintId, s[|s| - 1].fingerprintId);
      }
    }
  }

  // ---- Folding a comparison's added behaviors -----------------------------------------------------------------

  /** validateChangeCountArithmetic. */
  predicate ChangeCountPossible(added: int, changes: int) {
    0 <= changes <= added && (added > 0 ==> changes > 0)
  }

  /** The diff with the fold of its added identities over some reading of the history. */
  ghost predicate Correlated(d: BehaviorDiff, observations: seq<Observation>, history: ObservationHistory, e: BehaviorDiff) {
    exists p {:trigger IsParentage(observations, p)} :: IsParentage(observations, p)
      && (e.changes, e.correlation) == Fold(AddedIdentities(d.deltas), p, CorrelationStateFor(history))
      && e == d.(changes := e.changes, correlation := e.correlation)
  }

  lemma FoldCountPossible(added: seq<Id>, p: Parentage, state: CorrelationState)
    requires Ascending(added)
    ensures ChangeCountPossible(|added|, |Fold(added, p, state).0|)
    ensures Fold(added, p, state).1 != CorrelationComplete ==> |Fold(added, p, state).0| == |added|
  {
    hide Fold;
    FoldCoversAndOnlyLowers(added, p, state);
  }

  /** WithCorrelation: the arithmetic it checks after folding can never refuse. */
  method WithCorrelation(d: BehaviorDiff, observations: seq<Observation>, history: ObservationHistory) returns (r: Result<BehaviorDiff, CompareError>)
    requires DeltasAscending(d.deltas)
    ensures r.Ok? && Correlated(d, observations, history, r.value)
  {
    hide Fold, IsParentage;
    var added := AddedIdentities(d.deltas);
    AddedIdentitiesAscend(d.deltas);
    var state := CorrelationStateFor(history);
    var parentage := BuildBehaviorParentage(observations);
    var changes, result := FoldAddedChanges(added, parentage, state);
    FoldCountPossible(added, parentage, state);
    if !ChangeCountPossible(|added|, |changes|) {
      return Err(ImpossibleChangeCount);
    }
    r := Ok(d.(changes := changes, correlation := result));
  }

  /** Over a complete history with no ambiguous span and no cyclic parentage, what a correlated comparison counts is exactly
      the added identities the occurrence rule does not fold away. */
  lemma CorrelatedCountsTheRule(d: BehaviorDiff, observations: seq<Observation>, history: ObservationHistory, e: BehaviorDiff, id: Id)
    requires DeltasAscending(d.deltas) && Correlated(d, observations, history, e) && !AddedIn(d.deltas, "")
    requires e.correlation == CorrelationComplete
    ensures Unambiguous(observations) && history.state == HistoryComplete
    ensures AddedIn(d.deltas, id) ==>
              (IsRootOf(e.changes, id) <==> !FoldedAway(observations, Elems(AddedIdentities(d.deltas)), id))
  {
    hide IsParentage, FoldedAway, IsRootOf, OccurrenceCycle, Unambiguous;
    var added := AddedIdentities(d.deltas);
    AddedIdentitiesAre(d.deltas);
    AddedIdentitiesAscend(d.deltas);
    var p :| IsParentage(observations, p) && (e.changes, e.correlation) == Fold(added, p, CorrelationStateFor(history));
    FoldNeedsCompleteHistory(added, p, CorrelationStateFor(history));
    FoldRefinesOccurrenceRule(added, observations, p);
  }

  lemma FoldNeedsCompleteHistory(added: seq<Id>, p: Parentage, state: CorrelationState)
    ensures Fold(added, p, state).1 == CorrelationComplete ==> state == CorrelationComplete
  {
    hide RootChanges, AddedChildren, Unfolded;
  }

  // ---- The gate -----------------------------------------------------------------------------------------------

  /** The numbers of a comparison as the scorecard carries them, as Go ints. */
  datatype BehaviorSummary = BehaviorSummary(
    referenceDistinct: int, candidateDistinct: int, added: int, removed: int, shared: int,
    changes: int, correlation: CorrelationState, policyVersion: string)

  datatype Scorecard = Scorecard(referenceRecords: U64, candidateRecords: U64, blocks: U64, critical: U64, behavior: BehaviorSummary)

  datatype Limits = Limits(maxAdded: U64, maxBlocks: U64, maxCritical: U64, maxChanges: Option<U64>)

  datatype ChangeCheck = NotEvaluated | Evaluated(actual: int, maximum: U64, passed: bool)

  datatype GateResult = GateResult(
    referenceEvidence: bool, candidateEvidence: bool, addedBehaviors: bool, blockDecisions: bool, criticalRisk: bool,
    changes: ChangeCheck, pass: bool)

  const COUNTING_POLICY_VERSION := "1"

  function SummaryOf(d: BehaviorDiff): BehaviorSummary {
    BehaviorSummary(d.referenceDistinct, d.candidateDistinct, d.added, d.removed, d.shared, |d.changes|, d.correlation, COUNTING_POLICY_VERSION)
  }

  /** validateBehaviorSummaryArithmetic. */
  predicate SummaryArithmeticHolds(s: BehaviorSummary) {
    && s.added >= 0 && s.removed >= 0 && s.shared >= 0 && s.referenceDistinct >= 0 && s.candidateDistinct >= 0
    && s.added + s.shared == s.candidateDistinct && s.removed + s.shared == s.referenceDistinct
  }

  /** validateChangeCountEvidence. */
  predicate ChangeCountEvidenceHolds(s: BehaviorSummary) {
    && ChangeCountPossible(s.added, s.changes)
    && (s.correlation != CorrelationComplete ==> s.changes == s.added)
    && s.policyVersion != ""
  }

  /** EvaluateEvaluationGate on bound values: every check is evaluated, the counted-change check only when limited. */
  function Evaluate(card: Scorecard, limits: Limits): Option<GateResult> {
    var s := card.behavior;
    if !SummaryArithmeticHolds(s) then None
    else if limits.maxChanges.Some? && !ChangeCountEvidenceHolds(s) then None
    else
      var reference, candidate := card.referenceRecords >= 1, card.candidateRecords >= 1;
      var added, blocks, critical := s.added <= limits.maxAdded, card.blocks <= limits.maxBlocks, card.critical <= limits.maxCritical;
      var changes := match limits.maxChanges case None => NotEvaluated case Some(m) => Evaluated(s.changes, m, s.changes <= m);
      Some(GateResult(reference, candidate, added, blocks, critical, changes,
                      reference && candidate && added && blocks && critical && (changes.Evaluated? ==> changes.passed)))
  }

  /** A comparison just made, or one the fold has been applied to. */
  ghost predicate ProducedDiff(reference: BehaviorSnapshot, candidate: BehaviorSnapshot, d: BehaviorDiff) {
    && Bound(reference) && Bound(candidate) && Compared(reference, candidate).Ok?
    && (d == Compared(reference, candidate).value
        || exists observations, history :: Correlated(Compared(reference, candidate).value, observations, history, d))
  }

  lemma ProducedChanges(d: BehaviorDiff, observations: seq<Observation>, history: ObservationHistory, e: BehaviorDiff)
    requires DeltasAscending(d.deltas) && Correlated(d, observations, history, e)
    ensures ChangeCountPossible(|AddedIdentities(d.deltas)|, |e.changes|)
    ensures e.correlation != CorrelationComplete ==> |e.changes| == |AddedIdentities(d.deltas)|
    ensures e == d.(changes := e.changes, correlation := e.correlation)
  {
    hide IsParentage, Fold;
    AddedIdentitiesAscend(d.deltas);
    var p :| IsParentage(observations, p) && (e.changes, e.correlation) == Fold(AddedIdentities(d.deltas), p, CorrelationStateFor(history));
    FoldCountPossible(AddedIdentities(d.deltas), p, CorrelationStateFor(history));
  }

  lemma UncorrelatedChanges(reference: BehaviorSnapshot, candidate: BehaviorSnapshot)
    requires Compared(reference, candidate).Ok?
    ensures var d := Compared(reference, candidate).value;
            |d.changes| == |AddedIdentities(d.deltas)| && d.correlation == CorrelationUnavailable
  {
    hide Plus, AddEntries, Consistent, RawDeltas, SortDeltas, CountPresence, AddedIdentities, CompareOperational;
  }

  lemma ComparedAscends(reference: BehaviorSnapshot, candidate: BehaviorSnapshot)
    requires Bound(reference) && Bound(candidate) && Compared(reference, candidate).Ok?
    ensures DeltasAscending(Compared(reference, candidate).value.deltas)
  {
    hide Compared, Bound, IsRight, MentionsId, DeltasAscending;
    ComparedDeltas(reference, candidate);
  }

  lemma SummaryHolds(d: BehaviorDiff)
    requires Partitions(d) && ChangeCountPossible(|AddedIdentities(d.deltas)|, |d.changes|)
    requires d.correlation != CorrelationComplete ==> |d.changes| == |AddedIdentities(d.deltas)|
    ensures SummaryArithmeticHolds(SummaryOf(d)) && ChangeCountEvidenceHolds(SummaryOf(d))
  {
    AddedIdentitiesAre(d.deltas);
  }

  lemma FoldKeepsCounts(d: BehaviorDiff, e: BehaviorDiff)
    requires Partitions(d) && e == d.(changes := e.changes, correlation := e.correlation)
    ensures Partitions(e) && e.deltas == d.deltas
  {
    hide CountPresence, ReferenceTotal, CandidateTotal;
  }

  /** The gate's two arithmetic guards accept every comparison the platform produces, folded or not: no diff is ever
      refused as impossible evidence. */
  lemma GateAcceptsEveryDiff(reference: BehaviorSnapshot, candidate: BehaviorSnapshot, d: BehaviorDiff)
    requires ProducedDiff(reference, candidate, d)
    ensures SummaryArithmeticHolds(SummaryOf(d)) && ChangeCountEvidenceHolds(SummaryOf(d))
  {
    hide Compared, Bound, Partitions, Correlated, DeltasAscending, SummaryArithmeticHolds, ChangeCountEvidenceHolds, SummaryOf,
         ChangeCountPossible, AddedIdentities;
    var base := Compared(reference, candidate).value;
    DiffPartitions(reference, candidate);
    ComparedAscends(reference, candidate);
    if d == base {
      UncorrelatedChanges(reference, candidate);
      EqualIsPossible(|AddedIdentities(base.deltas)|);
    } else {
      var observations, history :| Correlated(base, observations, history, d);
      ProducedChanges(base, observations, history, d);
      FoldKeepsCounts(base, d);
    }
    SummaryHolds(d);
  }

  lemma EqualIsPossible(n: nat)
    ensures ChangeCountPossible(n, n)
  {
  }

  lemma BaseIsProduced(reference: BehaviorSnapshot, candidate: BehaviorSnapshot, d: BehaviorDiff)
    requires ProducedDiff(reference, candidate, d)
    ensures ProducedDiff(reference, candidate, Compared(reference, candidate).value)
  {
    hide Compared, Bound, Correlated;
  }

  /** The fold changes nothing the gate reads but the count of changes and the correlation, and never raises the count. */
  lemma FoldedCounts(reference: BehaviorSnapshot, candidate: BehaviorSnapshot, d: BehaviorDiff)
    requires ProducedDiff(reference, candidate, d)
    ensures var s, t := SummaryOf(Compared(reference, candidate).value), SummaryOf(d);
            && t == s.(changes := t.changes, correlation := t.correlation)
            && t.changes <= s.changes && (s.changes > 0 ==> t.changes > 0)
  {
    hide Compared, Bound, Correlated, DeltasAscending, ChangeCountPossible, AddedIdentities;
    var base := Compared(reference, candidate).value;
    ComparedAscends(reference, candidate);
    UncorrelatedChanges(reference, candidate);
    if d != base {
      var observations, history :| Correlated(base, observations, history, d);
      ProducedChanges(base, observations, history, d);
      PossibleIsLower(|AddedIdentities(base.deltas)|, |d.changes|);
    }
  }

  lemma PossibleIsLower(added: int, changes: int)
    requires ChangeCountPossible(added, changes)
    ensures changes <= added && (added > 0 ==> changes > 0)
  {
  }

  /** Folding only helps, under every set of limits: the gate answers on the comparison folded or not, and where it passes the
      unfolded one it passes the folded one. The two verdicts differ exactly where a limit on counted changes lies from the
      folded count up to, but not including, the unfolded one, and everything else passes. */
  lemma FoldOnlyHelps(reference: BehaviorSnapshot, candidate: BehaviorSnapshot, d: BehaviorDiff, card: Scorecard, limits: Limits)
    requires ProducedDiff(reference, candidate, d)
    ensures var unfolded, folded := card.(behavior := SummaryOf(Compared(reference, candidate).value)), card.(behavior := SummaryOf(d));
            && Evaluate(unfolded, limits).Some? && Evaluate(folded, limits).Some?
            && (Evaluate(unfolded, limits).value.pass ==> Evaluate(folded, limits).value.pass)
            && (Evaluate(folded, limits).value.pass && !Evaluate(unfolded, limits).value.pass <==>
                  && Evaluate(unfolded, limits.(maxChanges := None)).value.pass
                  && limits.maxChanges.Some? && folded.behavior.changes <= limits.maxChanges.value < unfolded.behavior.changes)
  {
    hide Bound, Correlated, Compared, SummaryOf, SummaryArithmeticHolds, ChangeCountEvidenceHolds;
    BaseIsProduced(reference, candidate, d);
    GateAcceptsEveryDiff(reference, candidate, d);
    GateAcceptsEveryDiff(reference, candidate, Compared(reference, candidate).value);
    FoldedCounts(reference, candidate, d);
  }

  // ---- The scorecard and the verdict --------------------------------------------------------------------------

  /** Go's wrapping Total of a category. */
  function WrappedTotal(total: nat): U64 {
    total % TWO_TO_THE_64
  }

  /** validateAggregateEvidence: each category totals the records. */
  predicate IsAggregateEvidence(a: EvaluationAggregate) {
    && WrappedTotal(a.decisions.allow + a.decisions.observeOnly + a.decisions.alert + a.decisions.challenge
                    + a.decisions.requireApproval + a.decisions.block) == a.recordCount
    && WrappedTotal(a.risks.low + a.risks.medium + a.risks.high + a.risks.critical) == a.recordCount
    && WrappedTotal(a.approvals.unspecified + a.approvals.notRequired + a.approvals.required + a.approvals.approved
                    + a.approvals.denied) == a.recordCount
    && WrappedTotal(a.policy.matchedRule + a.policy.matchedDefault) == a.recordCount
  }

  /** assertSameComparison, as far as environments and counts go. */
  predicate SameComparison(reference: EvaluationAggregate, candidate: EvaluationAggregate, d: BehaviorDiff) {
    && reference.environment == candidate.environment == d.environment
    && reference.recordCount == d.referenceObservations && candidate.recordCount == d.candidateObservations
  }

  /** NewEvaluationScorecard, of which the gate reads these fields. */
  function NewScorecard(reference: EvaluationAggregate, candidate: EvaluationAggregate, d: BehaviorDiff): Option<Scorecard> {
    if !IsAggregateEvidence(reference) || !IsAggregateEvidence(candidate) || !SameComparison(reference, candidate, d) then None
    else Some(Scorecard(reference.recordCount, candidate.recordCount, candidate.decisions.block, candidate.risks.critical, SummaryOf(d)))
  }

  /** Where the positions of a comparison's added identities are. */
  function AddedPositions(s: seq<BehaviorDelta>): set<nat> {
    set k: nat | k < |s| && s[k].presence == BehaviorAdded
  }

  lemma {:induction false} AddedAreCounted(s: seq<BehaviorDelta>)
    ensures |AddedPositions(s)| == CountPresence(s, BehaviorAdded)
  {
    if s == [] {
      assert AddedPositions(s) == {};
    } else {
      var init, last := s[..|s| - 1], s[|s| - 1];
      AddedAreCounted(init);
      var n := |init|;
      assert AddedPositions(s) == if last.presence == BehaviorAdded then AddedPositions(init) + {n} else AddedPositions(init);
      assert n !in AddedPositions(init);
    }
  }

  /** The gate refuses exactly the summaries whose numbers contradict each other: counts that are negative or do not partition
      the two sides and, where changes are limited, a changed count above the added one, none over some added, one that
      differs from it without a complete correlation, or no counting policy. */
  lemma GateRefusesIff(card: Scorecard, limits: Limits)
    ensures Evaluate(card, limits).None? <==>
            var s := card.behavior;
            || s.added < 0 || s.removed < 0 || s.shared < 0 || s.referenceDistinct < 0 || s.candidateDistinct < 0
            || s.added + s.shared != s.candidateDistinct || s.removed + s.shared != s.referenceDistinct
            || (limits.maxChanges.Some?
                && (|| s.changes < 0 || s.changes > s.added || (s.added > 0 && s.changes == 0) || s.policyVersion == ""
                    || (s.correlation != CorrelationComplete && s.changes != s.added)))
  {
  }

  lemma CountersAreEvidence(a: EvaluationAggregate)
    requires CountersValid(a)
    ensures IsAggregateEvidence(a)
  {
    hide ValidRestored;
  }

  lemma ProducedCounts(reference: BehaviorSnapshot, candidate: BehaviorSnapshot, d: BehaviorDiff)
    requires ProducedDiff(reference, candidate, d)
    ensures reference.complete && candidate.complete
    ensures d.environment == reference.environment == candidate.environment
    ensures d.referenceObservations == reference.observations && d.candidateObservations == candidate.observations
    ensures d.deltas == Compared(reference, candidate).value.deltas && d.added == CountPresence(d.deltas, BehaviorAdded)
    ensures d.operational == Compared(reference, candidate).value.operational
  {
    hide Bound, Plus, AddEntries, Consistent, RawDeltas, SortDeltas, AddedIdentities, CompareOperational, CountPresence, IsParentage, Fold;
    DiffPartitions(reference, candidate);
    PartitionsAdd(Compared(reference, candidate).value);
  }

  lemma PartitionsAdd(d: BehaviorDiff)
    requires Partitions(d)
    ensures d.added == CountPresence(d.deltas, BehaviorAdded)
  {
    hide CountPresence, ReferenceTotal, CandidateTotal;
  }

  /** For every two runs' evidence and every comparison made of them, folded or not, the scorecard is made and the gate answers;
      it passes if and only if both runs accepted a record and the candidate's added identities, blocked records, critical
      records and, where limited, counted changes are within their limits; and each check it reports is its own. */
  lemma GatePassesIff(ra: EvaluationAggregate, rs: BehaviorSnapshot, ca: EvaluationAggregate, cs: BehaviorSnapshot, d: BehaviorDiff, limits: Limits)
    requires CountersValid(ra) && CountersValid(ca) && PairAgrees(ra, rs) && PairAgrees(ca, cs) && ProducedDiff(rs, cs, d)
    ensures NewScorecard(ra, ca, d).Some?
    ensures var card := NewScorecard(ra, ca, d).value;
            && Evaluate(card, limits).Some?
            && var g := Evaluate(card, limits).value;
               && (g.pass <==>
                     && ra.recordCount >= 1 && ca.recordCount >= 1
                     && |AddedPositions(d.deltas)| <= limits.maxAdded
                     && ca.decisions.block <= limits.maxBlocks && ca.risks.critical <= limits.maxCritical
                     && (limits.maxChanges.Some? ==> |d.changes| <= limits.maxChanges.value))
               && (g.referenceEvidence <==> ra.recordCount >= 1) && (g.candidateEvidence <==> ca.recordCount >= 1)
               && (g.addedBehaviors <==> |AddedPositions(d.deltas)| <= limits.maxAdded)
               && (g.blockDecisions <==> ca.decisions.block <= limits.maxBlocks)
               && (g.criticalRisk <==> ca.risks.critical <= limits.maxCritical)
               && g.changes == if limits.maxChanges.None? then NotEvaluated
                               else Evaluated(|d.changes|, limits.maxChanges.value, |d.changes| <= limits.maxChanges.value)
  {
    hide CountersValid, IsAggregateEvidence, ProducedDiff, AddedPositions, CountPresence, Compared, SummaryArithmeticHolds, ChangeCountEvidenceHolds;
    CountersAreEvidence(ra);
    CountersAreEvidence(ca);
    ProducedCounts(rs, cs, d);
    GateAcceptsEveryDiff(rs, cs, d);
    AddedAreCounted(d.deltas);
  }
}
