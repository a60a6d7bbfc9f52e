/** platform/behavior.go's comparison of two snapshots: which behaviors were added, removed or shared, what the counts
    add up to, and the counting fold applied to the added ones. */
module Diff {
  import opened Bounded
  import opened Ordering
  import opened BehaviorOperational
  import F = Fidelity
  import opened Aggregate
  import opened Collector
  import opened Evidence
  import opened Conservation
  import opened Counting
  import opened Retention

  datatype Presence = BehaviorAdded | BehaviorRemoved | BehaviorShared

  datatype BehaviorDelta = BehaviorDelta(
    fingerprintId: Id, behavior: StableFeatures, presence: Presence, referenceCount: U64, candidateCount: U64,
    referenceFidelity: F.BehaviorFidelity, candidateFidelity: F.BehaviorFidelity)

  datatype Unavailability = Comparable | ReferenceUnavailable | CandidateUnavailable | BothUnavailable

  datatype OperationalComparison = OperationalComparison(
    reference: OperationalSummary, candidate: OperationalSummary,
    latency: Unavailability, errors: Unavailability, tokens: Unavailability)

  datatype BehaviorDiff = BehaviorDiff(
    environment: string, referenceObservations: U64, referenceDistinct: nat, candidateObservations: U64, candidateDistinct: nat,
    added: nat, removed: nat, shared: nat, deltas: seq<BehaviorDelta>,
    changes: seq<BehaviorChange>, correlation: CorrelationState, operational: OperationalComparison)

  datatype CompareError = IncompleteSnapshot | EnvironmentDiffers | IdentityConflict | OperationalOverflow | ImpossibleChangeCount

  // ---- Identity consistency -----------------------------------------------------------------------------------

  function ById(entries: seq<BehaviorEntry>): map<Id, BehaviorEntry> {
    if entries == [] then map[] else ById(entries[..|entries| - 1])[entries[|entries| - 1].fingerprintId := entries[|entries| - 1]]
  }

  function ByBehavior(entries: seq<BehaviorEntry>): map<StableFeatures, Id> {
    if entries == [] then map[] else ByBehavior(entries[..|entries| - 1])[entries[|entries| - 1].behavior := entries[|entries| - 1].fingerprintId]
  }

  /** What a collector's snapshot promises about its entries. */
  ghost predicate Listed(entries: seq<BehaviorEntry>) {
    && EntriesAscending(entries)
    && forall i, j | 0 <= i < j < |entries| :: entries[i].behavior != entries[j].behavior
  }

  ghost predicate Bound(s: BehaviorSnapshot) {
    Listed(s.entries) && EntryTotal(s.entries) == s.observations
  }

  /** Across both snapshots a fingerprint names one behavior and a behavior has one fingerprint. */
  ghost predicate Consistent(reference: seq<BehaviorEntry>, candidate: seq<BehaviorEntry>) {
    forall i, j | 0 <= i < |reference| && 0 <= j < |candidate| ::
      reference[i].fingerprintId == candidate[j].fingerprintId <==> reference[i].behavior == candidate[j].behavior
  }

  lemma {:induction false} ByIdFinds(entries: seq<BehaviorEntry>, id: Id)
    ensures id in ById(entries) <==> exists i :: 0 <= i < |entries| && entries[i].fingerprintId == id
    ensures id in ById(entries) ==> ById(entries)[id] in entries && ById(entries)[id].fingerprintId == id
  {
    if entries != [] {
      var init, last := entries[..|entries| - 1], entries[|entries| - 1];
      assert entries == init + [last];
      ByIdFinds(init, id);
      if id in ById(init) {
        var i :| 0 <= i < |init| && init[i].fingerprintId == id;
        assert entries[i].fingerprintId == id;
      }
      assert entries[|entries| - 1] == last;
    }
  }

  lemma {:induction false} ByBehaviorFinds(entries: seq<BehaviorEntry>, b: StableFeatures)
    ensures b in ByBehavior(entries) <==> exists i :: 0 <= i < |entries| && entries[i].behavior == b
    ensures b in ByBehavior(entries) ==> exists i :: 0 <= i < |entries| && entries[i].behavior == b && entries[i].fingerprintId == ByBehavior(entries)[b]
  {
    if entries != [] {
      var init, last := entries[..|entries| - 1], entries[|entries| - 1];
      assert entries == init + [last];
      ByBehaviorFinds(init, b);
      if b in ByBehavior(init) {
        var i :| 0 <= i < |init| && init[i].behavior == b && init[i].fingerprintId == ByBehavior(init)[b];
        assert entries[i] == init[i];
      }
      assert entries[|entries| - 1] == last;
    }
  }

  lemma FingerprintUnique(entries: seq<BehaviorEntry>, i: nat, j: nat)
    requires EntriesAscending(entries) && i < |entries| && j < |entries| && entries[i].fingerprintId == entries[j].fingerprintId
    ensures i == j
  {
    if i < j {
      LessAsymmetric(entries[i].fingerprintId, entries[j].fingerprintId);
    } else if j < i {
      LessAsymmetric(entries[j].fingerprintId, entries[i].fingerprintId);
    }
  }

  lemma ByIdAt(entries: seq<BehaviorEntry>, i: nat)
    requires EntriesAscending(entries) && i < |entries|
    ensures entries[i].fingerprintId in ById(entries) && ById(entries)[entries[i].fingerprintId] == entries[i]
  {
    ByIdFinds(entries, entries[i].fingerprintId);
    var e := ById(entries)[entries[i].fingerprintId];
    var j :| 0 <= j < |entries| && entries[j] == e;
    FingerprintUnique(entries, i, j);
  }

  lemma ByBehaviorAt(entries: seq<BehaviorEntry>, i: nat)
    requires Listed(entries) && i < |entries|
    ensures entries[i].behavior in ByBehavior(entries) && ByBehavior(entries)[entries[i].behavior] == entries[i].fingerprintId
  {
    ByBehaviorFinds(entries, entries[i].behavior);
    var j :| 0 <= j < |entries| && entries[j].behavior == entries[i].behavior && entries[j].fingerprintId == ByBehavior(entries)[entries[i].behavior];
    assert i == j;
  }

  /** One candidate entry checked in both directions. */
  predicate EntryConsistent(byId: map<Id, BehaviorEntry>, byBehavior: map<StableFeatures, Id>, e: BehaviorEntry) {
    && (e.fingerprintId in byId ==> byId[e.fingerprintId].behavior == e.behavior)
    && (e.behavior in byBehavior ==> byBehavior[e.behavior] == e.fingerprintId)
  }

  lemma EntryConsistentMeans(reference: seq<BehaviorEntry>, e: BehaviorEntry)
    requires Listed(reference)
    ensures EntryConsistent(ById(reference), ByBehavior(reference), e) <==>
            forall i | 0 <= i < |reference| :: reference[i].fingerprintId == e.fingerprintId <==> reference[i].behavior == e.behavior
  {
    forall i | 0 <= i < |reference|
      ensures reference[i].fingerprintId in ById(reference) && ById(reference)[reference[i].fingerprintId] == reference[i]
      ensures reference[i].behavior in ByBehavior(reference) && ByBehavior(reference)[reference[i].behavior] == reference[i].fingerprintId
    {
      ByIdAt(reference, i);
      ByBehaviorAt(reference, i);
    }
    ByIdFinds(reference, e.fingerprintId);
    ByBehaviorFinds(reference, e.behavior);
  }

  method IndexReference(entries: seq<BehaviorEntry>) returns (byId: map<Id, BehaviorEntry>, byBehavior: map<StableFeatures, Id>)
    ensures byId == ById(entries) && byBehavior == ByBehavior(entries)
  {
    byId, byBehavior := map[], map[];
    for i := 0 to |entries|
      invariant byId == ById(entries[..i]) && byBehavior == ByBehavior(entries[..i])
    {
      assert entries[..i + 1][..i] == entries[..i];
      byId := byId[entries[i].fingerprintId := entries[i]];
      byBehavior := byBehavior[entries[i].behavior := entries[i].fingerprintId];
    }
    assert entries[..|entries|] == entries;
  }

  /** The loop over the candidate decides consistency of all pairs. */
  method AssertConsistentIdentity(byId: map<Id, BehaviorEntry>, byBehavior: map<StableFeatures, Id>, ghost reference: seq<BehaviorEntry>, candidate: seq<BehaviorEntry>)
    returns (ok: bool)
    requires Listed(reference) && byId == ById(reference) && byBehavior == ByBehavior(reference)
    ensures ok <==> Consistent(reference, candidate)
  {
    for j := 0 to |candidate|
      invariant forall k | 0 <= k < j :: EntryConsistent(byId, byBehavior, candidate[k])
    {
      EntryConsistentMeans(reference, candidate[j]);
      if candidate[j].fingerprintId in byId && byId[candidate[j].fingerprintId].behavior != candidate[j].behavior {
        return false;
      }
      if candidate[j].behavior in byBehavior && byBehavior[candidate[j].behavior] != candidate[j].fingerprintId {
        return false;
      }
    }
    forall j | 0 <= j < |candidate|
      ensures forall i | 0 <= i < |reference| ::
                reference[i].fingerprintId == candidate[j].fingerprintId <==> reference[i].behavior == candidate[j].behavior
    {
      EntryConsistentMeans(reference, candidate[j]);
    }
    ok := true;
  }

  // ---- Deltas -------------------------------------------------------------------------------------------------

  function CandidateDelta(byId: map<Id, BehaviorEntry>, e: BehaviorEntry): BehaviorDelta {
    if e.fingerprintId in byId then
      BehaviorDelta(e.fingerprintId, e.behavior, BehaviorShared, byId[e.fingerprintId].observations, e.observations,
                    byId[e.fingerprintId].fidelity, e.fidelity)
    else BehaviorDelta(e.fingerprintId, e.behavior, BehaviorAdded, 0, e.observations, F.NO_FIDELITY, e.fidelity)
  }

  function RemovedDelta(e: BehaviorEntry): BehaviorDelta {
    BehaviorDelta(e.fingerprintId, e.behavior, BehaviorRemoved, e.observations, 0, e.fidelity, F.NO_FIDELITY)
  }

  function CandidateDeltas(byId: map<Id, BehaviorEntry>, candidate: seq<BehaviorEntry>): seq<BehaviorDelta> {
    if candidate == [] then []
    else CandidateDeltas(byId, candidate[..|candidate| - 1]) + [CandidateDelta(byId, candidate[|candidate| - 1])]
  }

  function RemovedDeltas(candidateIds: set<Id>, reference: seq<BehaviorEntry>): seq<BehaviorDelta> {
    if reference == [] then []
    else
      var rest, e := RemovedDeltas(candidateIds, reference[..|reference| - 1]), reference[|reference| - 1];
      if e.fingerprintId in candidateIds then rest else rest + [RemovedDelta(e)]
  }

  function IdsOf(entries: seq<BehaviorEntry>): seq<Id> {
    seq(|entries|, i requires 0 <= i < |entries| => entries[i].fingerprintId)
  }

  function RawDeltas(reference: seq<BehaviorEntry>, candidate: seq<BehaviorEntry>): seq<BehaviorDelta> {
    CandidateDeltas(ById(reference), candidate) + RemovedDeltas(Elems(IdsOf(candidate)), reference)
  }

  function InsertDelta(s: seq<BehaviorDelta>, d: BehaviorDelta): seq<BehaviorDelta> {
    if s == [] || !Less(d.fingerprintId, s[|s| - 1].fingerprintId) then s + [d]
    else InsertDelta(s[..|s| - 1], d) + [s[|s| - 1]]
  }

  /** slices.SortFunc by fingerprint. */
  function SortDeltas(s: seq<BehaviorDelta>): seq<BehaviorDelta> {
    if s == [] then [] else InsertDelta(SortDeltas(s[..|s| - 1]), s[|s| - 1])
  }

  function CountPresence(s: seq<BehaviorDelta>, p: Presence): nat {
    if s == [] then 0 else CountPresence(s[..|s| - 1], p) + (if s[|s| - 1].presence == p then 1 else 0)
  }

  function ReferenceTotal(s: seq<BehaviorDelta>): nat {
    if s == [] then 0 else ReferenceTotal(s[..|s| - 1]) + s[|s| - 1].referenceCount
  }

  function CandidateTotal(s: seq<BehaviorDelta>): nat {
    if s == [] then 0 else CandidateTotal(s[..|s| - 1]) + s[|s| - 1].candidateCount
  }

  /** addedIdentities; its final sort has nothing left to move on a sorted delta list. */
  function AddedIdentities(s: seq<BehaviorDelta>): seq<Id> {
    if s == [] then []
    else AddedIdentities(s[..|s| - 1]) + (if s[|s| - 1].presence == BehaviorAdded then [s[|s| - 1].fingerprintId] else [])
  }

  function UnavailabilityOf(reference: bool, candidate: bool): Unavailability {
    if reference && candidate then Comparable
    else if candidate then ReferenceUnavailable
    else if reference then CandidateUnavailable
    else BothUnavailable
  }

  function CompareOperational(r: OperationalSummary, c: OperationalSummary): OperationalComparison {
    OperationalComparison(r, c, UnavailabilityOf(LatencyAvailable(r), LatencyAvailable(c)),
                          UnavailabilityOf(ErrorsAvailable(r), ErrorsAvailable(c)), UnavailabilityOf(TokensAvailable(r), TokensAvailable(c)))
  }

  function DiffOf(reference: BehaviorSnapshot, candidate: BehaviorSnapshot, operational: OperationalComparison): BehaviorDiff {
    var raw := RawDeltas(reference.entries, candidate.entries);
    var deltas := SortDeltas(raw);
    BehaviorDiff(reference.environment, reference.observations, |reference.entries|, candidate.observations, |candidate.entries|,
                 CountPresence(raw, BehaviorAdded), CountPresence(raw, BehaviorRemoved), CountPresence(raw, BehaviorShared),
                 deltas, Unfolded(AddedIdentities(deltas)), CorrelationUnavailable, operational)
  }

  ghost function Compared(reference: BehaviorSnapshot, candidate: BehaviorSnapshot): Result<BehaviorDiff, CompareError> {
    if !reference.complete || !candidate.complete then Err(IncompleteSnapshot)
    else if reference.environment != candidate.environment then Err(EnvironmentDiffers)
    else if !Consistent(reference.entries, candidate.entries) then Err(IdentityConflict)
    else
      match (Plus(Some(EMPTY), AddEntries(reference.entries)), Plus(Some(EMPTY), AddEntries(candidate.entries)))
      case (Some(r), Some(c)) => Ok(DiffOf(reference, candidate, CompareOperational(r, c)))
      case _ => Err(OperationalOverflow)
  }

  method CountPresences(s: seq<BehaviorDelta>) returns (added: nat, removed: nat, shared: nat)
    ensures added == CountPresence(s, BehaviorAdded) && removed == CountPresence(s, BehaviorRemoved) && shared == CountPresence(s, BehaviorShared)
  {
    added, removed, shared := 0, 0, 0;
    for i := 0 to |s|
      invariant added == CountPresence(s[..i], BehaviorAdded) && removed == CountPresence(s[..i], BehaviorRemoved)
      invariant shared == CountPresence(s[..i], BehaviorShared)
    {
      assert s[..i + 1][..i] == s[..i];
      match s[i].presence
      case BehaviorAdded => added := added + 1;
      case BehaviorRemoved => removed := removed + 1;
      case BehaviorShared => shared := shared + 1;
    }
    assert s[..|s|] == s;
  }

  method CollectDeltas(byId: map<Id, BehaviorEntry>, reference: seq<BehaviorEntry>, candidate: seq<BehaviorEntry>) returns (deltas: seq<BehaviorDelta>)
    requires byId == ById(reference)
    ensures deltas == RawDeltas(reference, candidate)
  {
    deltas := [];
    for i := 0 to |candidate|
      invariant deltas == CandidateDeltas(byId, candidate[..i])
    {
      assert candidate[..i + 1][..i] == candidate[..i];
      deltas := deltas + [CandidateDelta(byId, candidate[i])];
    }
    assert candidate[..|candidate|] == candidate;
    var candidateIds := Elems(IdsOf(candidate));
    ghost var first := deltas;
    for i := 0 to |reference|
      invariant deltas == first + RemovedDeltas(candidateIds, reference[..i])
    {
      assert reference[..i + 1][..i] == reference[..i];
      if reference[i].fingerprintId in candidateIds {
        continue;
      }
      deltas := deltas + [RemovedDelta(reference[i])];
    }
    assert reference[..|reference|] == reference;
  }

  /** compareOperationalEntries: one run on each side. */
  method CompareOperationalEntries(reference: seq<BehaviorEntry>, candidate: seq<BehaviorEntry>) returns (r: Option<OperationalComparison>)
    ensures r == match (Plus(Some(EMPTY), AddEntries(reference)), Plus(Some(EMPTY), AddEntries(candidate)))
                 case (Some(x), Some(y)) => Some(CompareOperational(x, y))
                 case _ => None
  {
    hide Plus, AddEntries;
    var x := new OperationalSide();
    var y := new OperationalSide();
    var ok := x.AddRun(reference);
    if !ok {
      return None;
    }
    ok := y.AddRun(candidate);
    if !ok {
      return None;
    }
    r := Some(CompareOperational(x.sum, y.sum));
  }

  method CompareBehaviorSnapshots(reference: BehaviorSnapshot, candidate: BehaviorSnapshot) returns (r: Result<BehaviorDiff, CompareError>)
    requires Bound(reference) && Bound(candidate)
    ensures r == Compared(reference, candidate)
  {
    hide Plus, AddEntries, RawDeltas, SortDeltas, CountPresence, Consistent, CompareOperational, AddedIdentities;
    if !reference.complete || !candidate.complete {
      return Err(IncompleteSnapshot);
    }
    if reference.environment != candidate.environment {
      return Err(EnvironmentDiffers);
    }
    var byId, byBehavior := IndexReference(reference.entries);
    var consistent := AssertConsistentIdentity(byId, byBehavior, reference.entries, candidate.entries);
    if !consistent {
      return Err(IdentityConflict);
    }
    var raw := CollectDeltas(byId, reference.entries, candidate.entries);
    var added, removed, shared := CountPresences(raw);
    var deltas := SortDeltas(raw);
    var changes := Unfolded(AddedIdentities(deltas));
    var operational := CompareOperationalEntries(reference.entries, candidate.entries);
    if operational.None? {
      return Err(OperationalOverflow);
    }
    r := Ok(BehaviorDiff(reference.environment, reference.observations, |reference.entries|, candidate.observations,
                         |candidate.entries|, added, removed, shared, deltas, changes, CorrelationUnavailable, operational.value));
  }
}
