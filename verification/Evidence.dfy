/** A run's evidence: the aggregate and the behavior collector advanced together by one record, the snapshot stored
    beside the aggregate, and the checks stored evidence passes when it is read back. */
module Evidence {
  import opened Bounded
  import opened Ordering
  import opened Operational
  import opened BehaviorOperational
  import F = Fidelity
  import opened Aggregate
  import opened Collector

  /** What a run's records reduce to while they are being folded. */
  datatype Reduced = Reduced(aggregate: EvaluationAggregate, collector: CollectorState)

  /** What is stored of it. */
  datatype StoredEvidence = StoredEvidence(aggregate: EvaluationAggregate, snapshot: BehaviorSnapshot)

  function Empty(environment: string): Reduced {
    Reduced(NewAggregate(environment), NewCollector(environment))
  }

  ghost function EvidenceOf(x: Reduced): StoredEvidence {
    StoredEvidence(x.aggregate, SnapshotOf(x.collector))
  }

  /** Folds one record into both halves. A saturated collector is degraded evidence and does not refuse the record;
      every other refusal of either half refuses the whole. */
  function Reduce(x: Reduced, r: Record, f: Facts): Result<Reduced, IngestError> {
    match AddRecord(x.aggregate, r)
    case Err(e) => Err(e)
    case Ok(aggregate) =>
      var (collector, err) := Observed(x.collector, r, f);
      if err.Some? && err != Some(ErrBehaviorCapacity) then Err(err.value) else Ok(Reduced(aggregate, collector))
  }

  /** validateEvidencePair: a complete snapshot has seen exactly the aggregate's records, an incomplete one no more. */
  predicate PairAgrees(a: EvaluationAggregate, s: BehaviorSnapshot) {
    && a.environment == s.environment
    && (if s.complete then a.recordCount == s.observations else s.observations <= a.recordCount)
  }

  // ---- What every reduction keeps -----------------------------------------------------------------------------

  predicate IdentityFits(e: BehaviorEntry, environment: string) {
    ValidIdentity(e.fingerprintId, e.behavior) && e.behavior.environment == environment
  }

  ghost predicate IdentityFitsAt(c: CollectorState, id: Id) {
    id in c.entries ==> IdentityFits(c.entries[id], c.environment)
  }

  ghost predicate IdentitiesValid(c: CollectorState) {
    forall id :: IdentityFitsAt(c, id)
  }

  ghost predicate CountsAgree(x: Reduced) {
    && x.aggregate.environment == x.collector.environment
    && (x.collector.complete ==> x.collector.observations == x.aggregate.recordCount)
    && x.collector.observations <= x.aggregate.recordCount
  }

  ghost predicate ValidReduced(x: Reduced) {
    && SoundAggregate(x.aggregate) && ValidCollector(x.collector) && IdentitiesValid(x.collector) && CountsAgree(x)
  }

  lemma NewCollectorIdentities(environment: string)
    ensures IdentitiesValid(NewCollector(environment))
  {
  }

  lemma EmptyCounts(environment: string)
    ensures CountsAgree(Empty(environment)) && Empty(environment).aggregate.recordCount == 0
  {
  }

  lemma EmptyIsValidReduced(environment: string)
    ensures ValidReduced(Empty(environment)) && Empty(environment).aggregate.recordCount == 0
  {
    NewAggregateIsSound(environment);
    NewCollectorValid(environment);
    NewCollectorIdentities(environment);
    EmptyCounts(environment);
  }

  lemma ReduceKeepsIdentities(c: CollectorState, r: Record, f: Facts)
    requires IdentitiesValid(c)
    ensures IdentitiesValid(Observed(c, r, f).0) && Observed(c, r, f).0.environment == c.environment
  {
    var after := Observed(c, r, f).0;
    forall id ensures IdentityFitsAt(after, id) {
      assert IdentityFitsAt(c, id);
    }
  }

  lemma ReduceKeepsCounts(x: Reduced, r: Record, f: Facts)
    requires CountsAgree(x) && Reduce(x, r, f).Ok?
    ensures CountsAgree(Reduce(x, r, f).value)
  {
  }

  /** The observation counts agree exactly while the collector is complete: an accepted record leaves it complete and
      counted in both halves, or incomplete and counted in the aggregate alone. */
  lemma CompleteMeansEqual(x: Reduced, r: Record, f: Facts)
    requires CountsAgree(x) && Reduce(x, r, f).Ok?
    requires x.collector.complete <==> x.collector.observations == x.aggregate.recordCount
    ensures var y := Reduce(x, r, f).value;
            && (y.collector.complete <==> y.collector.observations == y.aggregate.recordCount)
            && y.aggregate.recordCount == x.aggregate.recordCount + 1
            && (y.collector.complete ==> x.collector.complete)
  {
  }

  lemma ReduceKeepsValid(x: Reduced, r: Record, f: Facts)
    requires ValidReduced(x) && Reduce(x, r, f).Ok?
    ensures ValidReduced(Reduce(x, r, f).value)
    ensures Reduce(x, r, f).value.aggregate.recordCount == x.aggregate.recordCount + 1
    ensures Reduce(x, r, f).value.aggregate.environment == x.aggregate.environment
    ensures Reduce(x, r, f).value.collector.complete ==> x.collector.complete
  {
    AddRecordKeepsSound(x.aggregate, r);
    ObservedKeepsValid(x.collector, r, f);
    ReduceKeepsIdentities(x.collector, r, f);
    ReduceKeepsCounts(x, r, f);
  }

  /** Dated evidence stays dated unless the record is the run's first and stands before the zero time. */
  lemma ReduceKeepsDated(x: Reduced, r: Record, f: Facts)
    requires ValidReduced(x) && Dated(x.aggregate) && Reduce(x, r, f).Ok?
    ensures Dated(Reduce(x, r, f).value.aggregate) <==> x.aggregate.recordCount > 0 || r.timestamp > 0
  {
    hide AddRecord, Observed, CountersValid, ValidCollector, IdentitiesValid;
    AddRecordKeepsSound(x.aggregate, r);
    ValidIffDated(AddRecord(x.aggregate, r).value);
  }

  /** A record either is observed by a complete collector, or leaves behind everything but its completeness. */
  lemma ReduceMoves(x: Reduced, r: Record, f: Facts)
    requires Reduce(x, r, f).Ok?
    ensures var c, d := x.collector, Reduce(x, r, f).value.collector;
            if d.complete then c.complete && d.observations == c.observations + 1 else d == c.(complete := false)
  {
    hide AddRecord, Observe, F.Observe, ReadDuration, ValidIdentity, ValidFacts;
  }

  // ---- Reading stored evidence back ---------------------------------------------------------------------------

  /** The snapshot's own row; its entries are rows of another table. */
  datatype SnapshotHeader = SnapshotHeader(environment: string, observations: U64, distinct: nat, complete: bool)

  function HeaderOf(s: BehaviorSnapshot): SnapshotHeader {
    SnapshotHeader(s.environment, s.observations, |s.entries|, s.complete)
  }

  function Assembled(h: SnapshotHeader, entries: seq<BehaviorEntry>): BehaviorSnapshot {
    BehaviorSnapshot(h.environment, h.observations, entries, h.complete)
  }

  function EntryTotal(entries: seq<BehaviorEntry>): nat {
    if entries == [] then 0 else EntryTotal(entries[..|entries| - 1]) + entries[|entries| - 1].observations
  }

  ghost predicate EntriesAscending(entries: seq<BehaviorEntry>) {
    forall i, j :: 0 <= i < j < |entries| ==> Less(entries[i].fingerprintId, entries[j].fingerprintId)
  }

  ghost predicate EntryFits(e: BehaviorEntry, environment: string) {
    ValidEntry(e) && IdentityFits(e, environment)
  }

  /** validateRestoredSnapshot's rules. */
  ghost predicate RestoredSnapshotValid(s: BehaviorSnapshot, distinct: nat) {
    && |s.entries| <= MAX_BEHAVIOR_ENTRIES && |s.entries| == distinct
    && (forall i | 0 <= i < |s.entries| :: EntryFits(s.entries[i], s.environment))
    && EntriesAscending(s.entries)
    && Indexed(s.entries).Some?
    && EntryTotal(s.entries) == s.observations
  }

  lemma AmongAddsOne(c: CollectorState, before: seq<Id>, id: Id)
    requires id in c.entries && id !in before
    ensures ObservationSum(EntriesAmong(c, before + [id])) == ObservationSum(EntriesAmong(c, before)) + c.entries[id].observations
  {
    assert EntriesAmong(c, before + [id]) == EntriesAmong(c, before)[id := c.entries[id]];
    NewEntryCounted(EntriesAmong(c, before), id, c.entries[id]);
  }

  lemma NoneAmong(c: CollectorState, ids: seq<Id>)
    requires |ids| == 0
    ensures ObservationSum(EntriesAmong(c, ids)) == 0
  {
    assert EntriesAmong(c, ids) == map[];
  }

  ghost predicate ListsEntries(c: CollectorState, ids: seq<Id>, s: seq<BehaviorEntry>) {
    |ids| == |s| && forall i | 0 <= i < |ids| :: ids[i] in c.entries && s[i] == c.entries[ids[i]]
  }

  lemma {:induction false} EntryTotalAmong(c: CollectorState, ids: seq<Id>, s: seq<BehaviorEntry>, n: nat)
    requires Distinct(ids) && ListsEntries(c, ids, s) && n <= |ids|
    ensures EntryTotal(s[..n]) == ObservationSum(EntriesAmong(c, ids[..n]))
  {
    if n == 0 {
      NoneAmong(c, ids[..0]);
    } else {
      EntryTotalAmong(c, ids, s, n - 1);
      assert ids[..n] == ids[..n - 1] + [ids[n - 1]];
      assert s[..n][..n - 1] == s[..n - 1];
      AmongAddsOne(c, ids[..n - 1], ids[n - 1]);
    }
  }

  lemma SortedIdsListEntries(c: CollectorState)
    ensures Distinct(SortIds(c.entries.Keys)) && |SortIds(c.entries.Keys)| == |c.entries|
    ensures ListsEntries(c, SortIds(c.entries.Keys), SortedEntries(c.entries))
  {
    AscendingDistinct(SortIds(c.entries.Keys));
    DistinctSize(SortIds(c.entries.Keys));
  }

  lemma EntryTotalWhole(c: CollectorState, ids: seq<Id>, s: seq<BehaviorEntry>)
    requires Distinct(ids) && ListsEntries(c, ids, s)
    ensures EntryTotal(s) == ObservationSum(EntriesAmong(c, ids))
  {
    EntryTotalAmong(c, ids, s, |ids|);
    assert ids[..|ids|] == ids && s[..|ids|] == s;
  }

  lemma SortedEntriesTotal(c: CollectorState)
    requires Bijection(c.entries, c.byBehavior)
    ensures EntryTotal(SortedEntries(c.entries)) == ObservationSum(c.entries)
  {
    var ids, s := SortIds(c.entries.Keys), SortedEntries(c.entries);
    SortedIdsListEntries(c);
    EntryTotalWhole(c, ids, s);
    EverythingAmong(c);
  }

  lemma SortedEntriesAscend(c: CollectorState)
    requires Bijection(c.entries, c.byBehavior)
    ensures EntriesAscending(SortedEntries(c.entries))
  {
    var ids, s := SortIds(c.entries.Keys), SortedEntries(c.entries);
    forall i, j | 0 <= i < j < |s| ensures Less(s[i].fingerprintId, s[j].fingerprintId) {
      SortedEntryAt(c, i);
      SortedEntryAt(c, j);
      assert Less(ids[i], ids[j]);
    }
  }

  lemma SortedEntriesFit(c: CollectorState)
    requires Bijection(c.entries, c.byBehavior) && EntriesValid(c.entries) && IdentitiesValid(c)
    ensures forall i | 0 <= i < |SortedEntries(c.entries)| :: EntryFits(SortedEntries(c.entries)[i], c.environment)
  {
    hide ValidEntry, IdentityFits;
    forall i | 0 <= i < |SortedEntries(c.entries)| ensures EntryFits(SortedEntries(c.entries)[i], c.environment) {
      SortedEntryAt(c, i);
      assert EntryValidAt(c.entries, SortIds(c.entries.Keys)[i]) && IdentityFitsAt(c, SortIds(c.entries.Keys)[i]);
    }
  }

  /** Whatever a run reduces to reads back through the restore-time validator as what was stored. */
  lemma StoredSnapshotReadsBack(c: CollectorState)
    requires ValidCollector(c) && IdentitiesValid(c)
    ensures RestoredSnapshotValid(SnapshotOf(c), HeaderOf(SnapshotOf(c)).distinct)
    ensures Assembled(HeaderOf(SnapshotOf(c)), SnapshotOf(c).entries) == SnapshotOf(c)
  {
    SortedIdsListEntries(c);
    SortedEntriesTotal(c);
    SortedEntriesAscend(c);
    SortedEntriesFit(c);
    RestoreInvertsSnapshot(c);
  }

  lemma StoredPairAgrees(x: Reduced)
    requires CountsAgree(x)
    ensures PairAgrees(x.aggregate, SnapshotOf(x.collector))
  {
  }

  // ---- The snapshot validator as written ----------------------------------------------------------------------

  method ValidateEntry(e: BehaviorEntry, environment: string) returns (ok: bool)
    ensures ok <==> EntryFits(e, environment)
  {
    if !ValidIdentity(e.fingerprintId, e.behavior) {
      return false;
    }
    if e.observations == 0 {
      return false;
    }
    ok := ValidateOperationalSummary(e.operational, e.observations);
    if !ok {
      return;
    }
    ok := F.ValidateBehaviorFidelity(e.fidelity, e.observations);
    if !ok {
      return;
    }
    ok := e.behavior.environment == environment;
  }

  /** Everything the row loop has established about the entries it has passed. */
  ghost predicate PassedUpTo(s: BehaviorSnapshot, n: nat) {
    && n <= |s.entries|
    && (forall i | 0 <= i < n :: EntryFits(s.entries[i], s.environment))
    && EntriesAscending(s.entries[..n])
  }

  lemma {:induction false} EntryTotalGrows(entries: seq<BehaviorEntry>, n: nat)
    requires n <= |entries|
    ensures EntryTotal(entries[..n]) <= EntryTotal(entries)
    decreases |entries| - n
  {
    if n == |entries| {
      assert entries[..n] == entries;
    } else {
      assert entries[..n + 1][..n] == entries[..n];
      EntryTotalGrows(entries, n + 1);
    }
  }

  lemma AscendsByOne(entries: seq<BehaviorEntry>, n: nat)
    requires n < |entries| && EntriesAscending(entries[..n])
    requires n > 0 ==> Less(entries[n - 1].fingerprintId, entries[n].fingerprintId)
    ensures EntriesAscending(entries[..n + 1])
  {
    var t := entries[..n + 1];
    forall i, j | 0 <= i < j < |t| ensures Less(t[i].fingerprintId, t[j].fingerprintId) {
      if j < n {
        assert Less(entries[..n][i].fingerprintId, entries[..n][j].fingerprintId);
      } else if i < n - 1 {
        assert Less(entries[..n][i].fingerprintId, entries[..n][n - 1].fingerprintId);
        LessTransitive(t[i].fingerprintId, t[n - 1].fingerprintId, t[n].fingerprintId);
      }
    }
  }

  lemma IndexedNext(s: BehaviorSnapshot, i: nat, fingerprints: map<Id, BehaviorEntry>, behaviors: map<StableFeatures, Id>)
    requires i < |s.entries| && Indexed(s.entries[..i]) == Some((fingerprints, behaviors))
    ensures var e := s.entries[i];
            if e.fingerprintId in fingerprints || e.behavior in behaviors then Indexed(s.entries).None?
            else Indexed(s.entries[..i + 1]) == Some((fingerprints[e.fingerprintId := e], behaviors[e.behavior := e.fingerprintId]))
  {
    assert s.entries[..i + 1][..i] == s.entries[..i];
    if Indexed(s.entries[..i + 1]).None? {
      IndexedNoneStays(s.entries, i + 1);
    }
  }

  lemma TotalNext(s: BehaviorSnapshot, i: nat)
    requires i < |s.entries|
    ensures EntryTotal(s.entries[..i + 1]) == EntryTotal(s.entries[..i]) + s.entries[i].observations
    ensures EntryTotal(s.entries[..i + 1]) <= EntryTotal(s.entries)
  {
    assert s.entries[..i + 1][..i] == s.entries[..i];
    EntryTotalGrows(s.entries, i + 1);
  }

  lemma PassedOneMore(s: BehaviorSnapshot, i: nat)
    requires i < |s.entries| && PassedUpTo(s, i) && EntryFits(s.entries[i], s.environment)
    requires i > 0 ==> Less(s.entries[i - 1].fingerprintId, s.entries[i].fingerprintId)
    ensures PassedUpTo(s, i + 1)
  {
    AscendsByOne(s.entries, i);
  }

  /** The fit and order checks of one row. */
  method CheckRow(s: BehaviorSnapshot, i: nat) returns (ok: bool)
    requires i < |s.entries| && PassedUpTo(s, i)
    ensures ok ==> PassedUpTo(s, i + 1)
    ensures !ok ==> !EntryFits(s.entries[i], s.environment) || !EntriesAscending(s.entries)
  {
    ok := ValidateEntry(s.entries[i], s.environment);
    if !ok {
      return;
    }
    if i > 0 && !Less(s.entries[i - 1].fingerprintId, s.entries[i].fingerprintId) {
      return false;
    }
    PassedOneMore(s, i);
  }

  /** validateRestoredSnapshot: accepts exactly what its rules say, comparing each fingerprint with the one before it
      only and refusing a total that would wrap. */
  method ValidateRestoredSnapshot(s: BehaviorSnapshot, distinct: nat) returns (ok: bool)
    ensures ok <==> RestoredSnapshotValid(s, distinct)
  {
    if |s.entries| > MAX_BEHAVIOR_ENTRIES || |s.entries| != distinct {
      return false;
    }
    var fingerprints: map<Id, BehaviorEntry> := map[];
    var behaviors: map<StableFeatures, Id> := map[];
    var observed: U64 := 0;
    for i := 0 to |s.entries|
      invariant PassedUpTo(s, i)
      invariant Indexed(s.entries[..i]) == Some((fingerprints, behaviors))
      invariant EntryTotal(s.entries[..i]) == observed
    {
      hide ValidEntry, IdentityFits, EntryFits, EntriesAscending, PassedUpTo, Indexed, EntryTotal;
      var e := s.entries[i];
      IndexedNext(s, i, fingerprints, behaviors);
      TotalNext(s, i);
      var passed := CheckRow(s, i);
      if !passed {
        return false;
      }
      if e.fingerprintId in fingerprints || e.behavior in behaviors {
        return false;
      }
      fingerprints := fingerprints[e.fingerprintId := e];
      behaviors := behaviors[e.behavior := e.fingerprintId];
      if observed > MAX_UINT64 - e.observations {
        return false;
      }
      observed := observed + e.observations;
    }
    assert s.entries[..|s.entries|] == s.entries;
    ok := observed == s.observations;
  }
}
