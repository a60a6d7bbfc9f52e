/** The acceptance gate over two runs' accepted requests: what its counts count. */
module GateOnRuns {
  import opened Bounded
  import opened Ordering
  import opened Aggregate
  import opened Collector
  import opened Evidence
  import opened Counting
  import opened Retention
  import opened Ingest
  import opened Protocol
  import opened ProtocolSafety
  import opened Tallies
  import opened Diff
  import opened DiffProperties
  import opened Gate

  /** The fingerprints the candidate's requests carried and none of the reference's did. */
  function AddedIds(reference: seq<Request>, candidate: seq<Request>): set<Id> {
    set q | q in candidate && RequestsOf(reference, q.record.fingerprintId) == [] :: q.record.fingerprintId
  }

  lemma {:induction false} RequestedIs(log: seq<Request>, id: Id)
    ensures RequestsOf(log, id) != [] <==> exists q :: q in log && q.record.fingerprintId == id
  {
    if log != [] {
      var init, last := log[..|log| - 1], log[|log| - 1];
      RequestedIs(init, id);
      assert log == init + [last];
      assert last in log;
    }
  }

  /** A complete collector's snapshot has an entry for exactly the fingerprints requested. */
  lemma SnapshotNames(c: CollectorState, log: seq<Request>, id: Id)
    requires HoldsRecords(c, log) && c.complete
    ensures id in ById(SnapshotOf(c).entries) <==> RequestsOf(log, id) != []
  {
    hide EntryStandsFor, RequestsOf, ById;
    SnapshotOfHolds(c, log);
    var entries := SnapshotOf(c).entries;
    assert log[..c.observations] == log;
    ByIdFinds(entries, id);
    if RequestsOf(log, id) != [] {
      assert EntryFor(entries, id);
    }
  }

  lemma AddedIdIs(r: seq<BehaviorEntry>, c: seq<BehaviorEntry>, deltas: seq<BehaviorDelta>, id: Id)
    requires DeltasAreRight(r, c, deltas)
    ensures AddedIn(deltas, id) <==> id in ById(c) && id !in ById(r)
  {
    hide ById;
    if AddedIn(deltas, id) {
      var k :| 0 <= k < |deltas| && deltas[k].fingerprintId == id && deltas[k].presence == BehaviorAdded;
      assert IsRight(r, c, deltas[k]);
    }
    if id in ById(c) && id !in ById(r) {
      assert MentionsId(deltas, id);
      var k :| 0 <= k < |deltas| && deltas[k].fingerprintId == id;
      assert IsRight(r, c, deltas[k]);
    }
  }

  lemma AddedSize(deltas: seq<BehaviorDelta>, ids: set<Id>)
    requires DeltasAscending(deltas) && forall id :: AddedIn(deltas, id) <==> id in ids
    ensures |AddedPositions(deltas)| == |ids|
  {
    hide AddedIn, AddedPositions, DeltasAscending;
    AddedAreCounted(deltas);
    AddedIdentitiesAre(deltas);
    AddedIdentitiesAscend(deltas);
    AscendingDistinct(AddedIdentities(deltas));
    DistinctSize(AddedIdentities(deltas));
    assert Elems(AddedIdentities(deltas)) == ids;
  }

  lemma FoldOfNewRun(environment: string, log: seq<Request>)
    requires FoldLog(Empty(environment), log).Ok?
    ensures var x := FoldLog(Empty(environment), log).value;
            && ValidReduced(x) && x.aggregate.recordCount == |log| && x.aggregate.environment == environment
            && CategoriesTallied(Empty(environment).aggregate, x.aggregate, log) && HoldsRecords(x.collector, log)
  {
    hide *;
    var o := Origin(Empty(environment), false, None);
    NewOrigin(environment);
    FoldFacts(o, log);
    EmptyIsValidReduced(environment);
    SoundParts(Empty(environment));
    EmptyCounts(environment);
    CategoriesAreTallies(Empty(environment), log);
    EntriesAreTheirRequests(environment, log);
  }

  lemma NewOrigin(environment: string)
    ensures var o := Origin(Empty(environment), false, None);
            && ValidOrigin(o) && o.start == Empty(environment) && o.start.aggregate.recordCount == 0
            && o.start.aggregate.environment == environment
  {
    hide ValidReduced;
  }

  lemma EvidenceOfRun(x: Reduced)
    requires ValidReduced(x)
    ensures CountersValid(x.aggregate) && PairAgrees(x.aggregate, SnapshotOf(x.collector)) && Bound(SnapshotOf(x.collector))
  {
    hide CountersValid, TimesOrdered, ValidCollector, IdentitiesValid, CountsAgree, PairAgrees, Bound, RestoredSnapshotValid, SortedEntries;
    StoredPairAgrees(x);
    StoredSnapshotReadsBack(x.collector);
    RestoredIsBound(SnapshotOf(x.collector), |SnapshotOf(x.collector).entries|);
  }

  lemma AddedOfRuns(xr: Reduced, lr: seq<Request>, xc: Reduced, lc: seq<Request>, d: BehaviorDiff)
    requires HoldsRecords(xr.collector, lr) && HoldsRecords(xc.collector, lc)
    requires ProducedDiff(SnapshotOf(xr.collector), SnapshotOf(xc.collector), d)
    ensures |AddedPositions(d.deltas)| == |AddedIds(lr, lc)|
  {
    hide HoldsRecords, Compared, DeltasAscending, Correlated, AddedIn, AddedPositions, MentionsId, IsRight, Bound, ById, RequestsOf, SortedEntries;
    var r, c := SnapshotOf(xr.collector), SnapshotOf(xc.collector);
    ProducedCounts(r, c, d);
    ComparedDeltas(r, c);
    forall id ensures AddedIn(d.deltas, id) <==> id in AddedIds(lr, lc) {
      AddedIdIs(r.entries, c.entries, d.deltas, id);
      SnapshotNames(xr.collector, lr, id);
      SnapshotNames(xc.collector, lc, id);
      RequestedIs(lc, id);
    }
    AddedSize(d.deltas, AddedIds(lr, lc));
  }

  /** The verdict over two new runs of one environment: it passes if and only if each accepted a request, the fingerprints only
      the candidate's requests carried are within their limit, its requests decided Block within theirs and its requests of
      critical risk within theirs and, where limited, so are the comparison's counted changes. */
  ghost predicate VerdictIs(pass: bool, lr: seq<Request>, lc: seq<Request>, changes: nat, limits: Limits) {
    pass <==>
      && lr != [] && lc != [] && |AddedIds(lr, lc)| <= limits.maxAdded
      && DecisionTally(lc, Block) <= limits.maxBlocks && RiskTally(lc, CriticalRisk) <= limits.maxCritical
      && (limits.maxChanges.Some? ==> changes <= limits.maxChanges.value)
  }

  lemma TalliesOfNewRun(environment: string, log: seq<Request>, a: EvaluationAggregate)
    requires CategoriesTallied(Empty(environment).aggregate, a, log)
    ensures a.decisions.block == DecisionTally(log, Block) && a.risks.critical == RiskTally(log, CriticalRisk) && a.recordCount == |log|
  {
    hide DecisionTally, RiskTally, ApprovalTally, DefaultTally;
  }

  lemma GatePassesOnRuns(environment: string, lr: seq<Request>, lc: seq<Request>, d: BehaviorDiff, limits: Limits)
    requires FoldLog(Empty(environment), lr).Ok? && FoldLog(Empty(environment), lc).Ok?
    requires ProducedDiff(SnapshotOf(FoldLog(Empty(environment), lr).value.collector),
                          SnapshotOf(FoldLog(Empty(environment), lc).value.collector), d)
    ensures var card := NewScorecard(FoldLog(Empty(environment), lr).value.aggregate, FoldLog(Empty(environment), lc).value.aggregate, d);
            && card.Some? && Evaluate(card.value, limits).Some?
            && VerdictIs(Evaluate(card.value, limits).value.pass, lr, lc, |d.changes|, limits)
  {
    hide FoldLog, ProducedDiff, NewScorecard, Evaluate, ValidReduced, HoldsRecords, CategoriesTallied, AddedIds, AddedPositions, DecisionTally,
         RiskTally, SnapshotOf, CountersValid, PairAgrees, Empty;
    var xr, xc := FoldLog(Empty(environment), lr).value, FoldLog(Empty(environment), lc).value;
    FoldOfNewRun(environment, lr);
    FoldOfNewRun(environment, lc);
    EvidenceOfRun(xr);
    EvidenceOfRun(xc);
    AddedOfRuns(xr, lr, xc, lc, d);
    TalliesOfNewRun(environment, lc, xc.aggregate);
    TalliesOfNewRun(environment, lr, xr.aggregate);
    GatePassesIff(xr.aggregate, SnapshotOf(xr.collector), xc.aggregate, SnapshotOf(xc.collector), d, limits);
  }
}
