/** platform/behavior.go's BehaviorCollector and its snapshot, and platform/ingest.go's restoration of one. */
module Collector {
  import opened Bounded
  import opened Ordering
  import opened Operational
  import opened BehaviorOperational
  import F = Fidelity
  import opened Aggregate

  const MAX_BEHAVIOR_ENTRIES: nat := 512
  const MAX_IDENTIFIER_LENGTH: nat := 256

  datatype BehaviorEntry = BehaviorEntry(
    fingerprintId: Id, behavior: StableFeatures, observations: U64, operational: OperationalSummary, fidelity: F.BehaviorFidelity)

  /** The value a collector holds. */
  datatype CollectorState = CollectorState(
    environment: string, observations: U64, entries: map<Id, BehaviorEntry>, byBehavior: map<StableFeatures, Id>, complete: bool)

  datatype BehaviorSnapshot = BehaviorSnapshot(environment: string, observations: U64, entries: seq<BehaviorEntry>, complete: bool)

  function NewCollector(environment: string): CollectorState {
    CollectorState(environment, 0, map[], map[], true)
  }

  predicate ValidText(s: string) {
    |s| <= MAX_IDENTIFIER_LENGTH
    && forall i | 0 <= i < |s| :: !(s[i] as int < 0x20 || s[i] as int == 0x7f || 0x80 <= s[i] as int <= 0x9f)
  }

  predicate ValidIdentity(fingerprintId: string, b: StableFeatures) {
    && fingerprintId != "" && ValidText(fingerprintId)
    && !b.actorType.ActorUnrecognized? && !b.operationCategory.OperationUnrecognized? && !b.targetCategory.TargetUnrecognized?
    && b.operationName != "" && ValidText(b.operationName) && ValidText(b.targetName)
  }

  function ObservedEntry(e: BehaviorEntry, r: Record, f: Facts): Result<BehaviorEntry, IngestError> {
    if e.observations == MAX_UINT64 then Err(ErrBehaviorOverflow)
    else
      match Observe(e.operational, ReadDuration(r.durationNanos), r.spanStatus, f)
      case Err(err) => Err(if err == InvalidRecord then ErrInvalidRecord else ErrBehaviorOverflow)
      case Ok(operational) =>
        match F.Observe(e.fidelity, f.fidelity, f.layer)
        case None => Err(ErrBehaviorOverflow)
        case Some(fidelity) => Ok(e.(observations := e.observations + 1, operational := operational, fidelity := fidelity))
  }

  function FreshEntry(r: Record): BehaviorEntry {
    BehaviorEntry(r.fingerprintId, r.behavior, 0, EMPTY, F.NO_FIDELITY)
  }

  /** The checks every record passes before the collector looks at its entries. */
  function Preflight(c: CollectorState, r: Record, f: Facts): Option<IngestError> {
    if !c.complete then Some(ErrBehaviorCapacity)
    else if c.observations == MAX_UINT64 then Some(ErrBehaviorOverflow)
    else if r.eventId == "" || r.timestamp == 0 then Some(ErrInvalidRecord)
    else if r.environment != c.environment then Some(ErrEnvironmentMismatch)
    else if r.behavior.environment != r.environment then Some(ErrInvalidRecord)
    else if !ValidIdentity(r.fingerprintId, r.behavior) then Some(ErrInvalidRecord)
    else if !ValidFacts(f) then Some(ErrInvalidRecord)
    else None
  }

  /** What one observation does: the next state, and the error it reports if any. Only a refusal for capacity changes
      the state, and only by marking it incomplete. */
  function Observed(c: CollectorState, r: Record, f: Facts): (CollectorState, Option<IngestError>) {
    match Preflight(c, r, f)
    case Some(e) => (c, Some(e))
    case None =>
      if r.fingerprintId in c.entries then
        var existing := c.entries[r.fingerprintId];
        if existing.behavior != r.behavior then (c, Some(ErrFingerprintConflict))
        else
          (match ObservedEntry(existing, r, f)
           case Err(e) => (c, Some(e))
           case Ok(next) => (c.(observations := c.observations + 1, entries := c.entries[r.fingerprintId := next]), None))
      else if r.behavior in c.byBehavior && c.byBehavior[r.behavior] != r.fingerprintId then (c, Some(ErrFingerprintConflict))
      else if |c.entries| >= MAX_BEHAVIOR_ENTRIES then (c.(complete := false), Some(ErrBehaviorCapacity))
      else
        match ObservedEntry(FreshEntry(r), r, f)
        case Err(e) => (c, Some(e))
        case Ok(next) =>
          (c.(observations := c.observations + 1, entries := c.entries[r.fingerprintId := next],
              byBehavior := c.byBehavior[r.behavior := r.fingerprintId]), None)
  }

  // ---- Invariants ---------------------------------------------------------------------------------------------

  ghost predicate Bijection(entries: map<Id, BehaviorEntry>, byBehavior: map<StableFeatures, Id>) {
    && (forall id | id in entries :: entries[id].fingerprintId == id && entries[id].behavior in byBehavior
                                     && byBehavior[entries[id].behavior] == id)
    && (forall b | b in byBehavior :: byBehavior[b] in entries && entries[byBehavior[b]].behavior == b)
  }

  ghost predicate ValidEntry(e: BehaviorEntry) {
    e.observations >= 1 && ValidSummary(e.operational, e.observations) && F.Valid(e.fidelity, e.observations)
    && e.fingerprintId != ""
  }

  ghost function ObservationSum(entries: map<Id, BehaviorEntry>): nat {
    if entries == map[] then 0
    else
      var id :| id in entries;
      entries[id].observations + ObservationSum(entries - {id})
  }

  ghost predicate Structured(c: CollectorState) {
    && Bijection(c.entries, c.byBehavior)
    && |c.entries| <= MAX_BEHAVIOR_ENTRIES
    && ObservationSum(c.entries) == c.observations
  }

  ghost predicate EntryValidAt(entries: map<Id, BehaviorEntry>, id: Id) {
    id in entries ==> ValidEntry(entries[id])
  }

  ghost predicate EntriesValid(entries: map<Id, BehaviorEntry>) {
    forall id :: EntryValidAt(entries, id)
  }

  ghost predicate ValidCollector(c: CollectorState) {
    Structured(c) && EntriesValid(c.entries)
  }

  lemma {:induction false} ObservationSumAt(entries: map<Id, BehaviorEntry>, id: Id)
    requires id in entries
    ensures ObservationSum(entries) == entries[id].observations + ObservationSum(entries - {id})
    decreases |entries|
  {
    var k :| k in entries && ObservationSum(entries) == entries[k].observations + ObservationSum(entries - {k});
    if k != id {
      ObservationSumAt(entries - {k}, id);
      ObservationSumAt(entries - {id}, k);
      assert entries - {k} - {id} == entries - {id} - {k};
    }
  }

  lemma ObservationSumPut(entries: map<Id, BehaviorEntry>, id: Id, e: BehaviorEntry)
    ensures ObservationSum(entries[id := e]) == e.observations + ObservationSum(entries - {id})
  {
    ObservationSumAt(entries[id := e], id);
    assert entries[id := e] - {id} == entries - {id};
  }

  lemma AbsentRemoved(entries: map<Id, BehaviorEntry>, id: Id)
    requires id !in entries
    ensures entries - {id} == entries
  {
  }

  function SampleOf(r: Record, f: Facts): FactSample {
    FactSample(ReadDuration(r.durationNanos), r.spanStatus, f)
  }

  lemma ObservedSamplePlausible(e: BehaviorEntry, r: Record, f: Facts)
    requires ValidFacts(f) && ObservedEntry(e, r, f).Ok?
    ensures PlausibleFacts(SampleOf(r, f))
  {
    DurationReadIsPlausible(r.durationNanos, r.spanStatus);
  }

  lemma ObservedEntryValid(e: BehaviorEntry, r: Record, f: Facts)
    requires ValidSummary(e.operational, e.observations) && F.Valid(e.fidelity, e.observations) && e.fingerprintId != ""
    requires ValidFacts(f) && ObservedEntry(e, r, f).Ok?
    ensures ValidEntry(ObservedEntry(e, r, f).value)
  {
    var x := SampleOf(r, f);
    ObservedSamplePlausible(e, r, f);
    ObserveKeepsValid(e.operational, e.observations, x);
    F.ObserveKeepsValid(e.fidelity, f.fidelity, f.layer, e.observations);
  }

  lemma KnownKeepsBijection(entries: map<Id, BehaviorEntry>, byBehavior: map<StableFeatures, Id>, id: Id, e: BehaviorEntry)
    requires Bijection(entries, byBehavior) && id in entries && e.fingerprintId == id && e.behavior == entries[id].behavior
    ensures Bijection(entries[id := e], byBehavior)
  {
  }

  lemma NewKeepsBijection(entries: map<Id, BehaviorEntry>, byBehavior: map<StableFeatures, Id>, id: Id, e: BehaviorEntry)
    requires Bijection(entries, byBehavior) && id !in entries && e.fingerprintId == id
    requires e.behavior in byBehavior ==> byBehavior[e.behavior] == id
    ensures Bijection(entries[id := e], byBehavior[e.behavior := id])
  {
  }

  lemma FreshObservedValid(r: Record, f: Facts)
    requires ValidFacts(f) && r.fingerprintId != "" && ObservedEntry(FreshEntry(r), r, f).Ok?
    ensures ValidEntry(ObservedEntry(FreshEntry(r), r, f).value)
  {
    var x := SampleOf(r, f);
    ObservedSamplePlausible(FreshEntry(r), r, f);
    SingleIsValid(x);
    F.ObserveKeepsValid(F.NO_FIDELITY, f.fidelity, f.layer, 0);
  }

  lemma KnownEntryCounted(entries: map<Id, BehaviorEntry>, id: Id, e: BehaviorEntry)
    requires id in entries
    ensures |entries[id := e]| == |entries|
    ensures ObservationSum(entries[id := e]) == ObservationSum(entries) - entries[id].observations + e.observations
  {
    ObservationSumAt(entries, id);
    ObservationSumPut(entries, id, e);
    assert entries[id := e].Keys == entries.Keys;
  }

  lemma NewEntryCounted(entries: map<Id, BehaviorEntry>, id: Id, e: BehaviorEntry)
    requires id !in entries
    ensures |entries[id := e]| == |entries| + 1 && ObservationSum(entries[id := e]) == ObservationSum(entries) + e.observations
  {
    AbsentRemoved(entries, id);
    ObservationSumPut(entries, id, e);
    assert entries[id := e].Keys == entries.Keys + {id};
  }

  lemma KnownKeepsStructure(c: CollectorState, id: Id, e: BehaviorEntry)
    requires Structured(c) && id in c.entries && c.observations < MAX_UINT64
    requires e.fingerprintId == id && e.behavior == c.entries[id].behavior && e.observations == c.entries[id].observations + 1
    ensures Structured(c.(observations := c.observations + 1, entries := c.entries[id := e]))
  {
    KnownKeepsBijection(c.entries, c.byBehavior, id, e);
    KnownEntryCounted(c.entries, id, e);
  }

  lemma NewKeepsStructure(c: CollectorState, id: Id, e: BehaviorEntry)
    requires Structured(c) && id !in c.entries && c.observations < MAX_UINT64 && |c.entries| < MAX_BEHAVIOR_ENTRIES
    requires e.fingerprintId == id && e.observations == 1 && (e.behavior in c.byBehavior ==> c.byBehavior[e.behavior] == id)
    ensures Structured(c.(observations := c.observations + 1, entries := c.entries[id := e],
                          byBehavior := c.byBehavior[e.behavior := id]))
  {
    NewKeepsBijection(c.entries, c.byBehavior, id, e);
    NewEntryCounted(c.entries, id, e);
  }

  lemma ObservedKeepsStructure(c: CollectorState, r: Record, f: Facts)
    requires Structured(c)
    ensures Structured(Observed(c, r, f).0)
  {
    var id := r.fingerprintId;
    if Observed(c, r, f).1.None? {
      if id in c.entries {
        KnownKeepsStructure(c, id, ObservedEntry(c.entries[id], r, f).value);
      } else {
        NewKeepsStructure(c, id, ObservedEntry(FreshEntry(r), r, f).value);
      }
    }
  }

  lemma PutKeepsEntriesValid(entries: map<Id, BehaviorEntry>, id: Id, e: BehaviorEntry)
    requires EntriesValid(entries) && ValidEntry(e)
    ensures EntriesValid(entries[id := e])
  {
    hide ValidEntry;
    var after := entries[id := e];
    forall k ensures EntryValidAt(after, k) {
      assert EntryValidAt(entries, k);
    }
  }

  lemma ObservedEntryKeepsValid(entries: map<Id, BehaviorEntry>, r: Record, f: Facts)
    requires EntriesValid(entries) && ValidFacts(f) && r.fingerprintId in entries
    requires ObservedEntry(entries[r.fingerprintId], r, f).Ok?
    ensures ValidEntry(ObservedEntry(entries[r.fingerprintId], r, f).value)
  {
    assert EntryValidAt(entries, r.fingerprintId);
    ObservedEntryValid(entries[r.fingerprintId], r, f);
  }

  lemma ObservedKeepsEntriesValid(c: CollectorState, r: Record, f: Facts)
    requires EntriesValid(c.entries)
    ensures EntriesValid(Observed(c, r, f).0.entries)
  {
    var id := r.fingerprintId;
    if Observed(c, r, f).1.None? {
      if id in c.entries {
        ObservedEntryKeepsValid(c.entries, r, f);
        PutKeepsEntriesValid(c.entries, id, ObservedEntry(c.entries[id], r, f).value);
      } else {
        FreshObservedValid(r, f);
        PutKeepsEntriesValid(c.entries, id, ObservedEntry(FreshEntry(r), r, f).value);
      }
    }
  }

  /** Every observation, accepted or refused, keeps the fingerprint-behavior bijection, the 512 bound, the count sum and
      every entry's validity. */
  lemma ObservedKeepsValid(c: CollectorState, r: Record, f: Facts)
    requires ValidCollector(c)
    ensures ValidCollector(Observed(c, r, f).0)
  {
    ObservedKeepsStructure(c, r, f);
    ObservedKeepsEntriesValid(c, r, f);
  }

  lemma NewCollectorValid(environment: string)
    ensures ValidCollector(NewCollector(environment))
  {
  }

  // ---- Snapshot and restoration -------------------------------------------------------------------------------

  ghost function SortedEntries(entries: map<Id, BehaviorEntry>): (s: seq<BehaviorEntry>)
    ensures |s| == |SortIds(entries.Keys)|
    ensures forall i | 0 <= i < |s| :: SortIds(entries.Keys)[i] in entries && s[i] == entries[SortIds(entries.Keys)[i]]
  {
    var ids := SortIds(entries.Keys);
    assert forall i | 0 <= i < |ids| :: ids[i] in Elems(ids);
    seq(|ids|, i requires 0 <= i < |ids| && ids[i] in entries => entries[ids[i]])
  }

  ghost function SnapshotOf(c: CollectorState): BehaviorSnapshot {
    BehaviorSnapshot(c.environment, c.observations, SortedEntries(c.entries), c.complete)
  }

  /** The two indexes rebuilt from an entry list, or None where a fingerprint or a behavior repeats. */
  function Indexed(entries: seq<BehaviorEntry>): Option<(map<Id, BehaviorEntry>, map<StableFeatures, Id>)> {
    if entries == [] then Some((map[], map[]))
    else
      match Indexed(entries[..|entries| - 1])
      case None => None
      case Some(m) =>
        var e := entries[|entries| - 1];
        if e.fingerprintId in m.0 || e.behavior in m.1 then None
        else Some((m.0[e.fingerprintId := e], m.1[e.behavior := e.fingerprintId]))
  }

  function Restored(s: BehaviorSnapshot): Result<CollectorState, IngestError> {
    match Indexed(s.entries)
    case None => Err(ErrStoreCorrupt)
    case Some(m) => Ok(CollectorState(s.environment, s.observations, m.0, m.1, s.complete))
  }

  /** The part of the two indexes that the first identifiers account for. */
  ghost function EntriesAmong(c: CollectorState, ids: seq<Id>): map<Id, BehaviorEntry> {
    map id | id in c.entries && id in ids :: c.entries[id]
  }

  ghost function BehaviorsAmong(c: CollectorState, ids: seq<Id>): map<StableFeatures, Id> {
    map b | b in c.byBehavior && c.byBehavior[b] in ids :: c.byBehavior[b]
  }

  lemma AmongGrows(c: CollectorState, ids: seq<Id>, id: Id)
    requires Bijection(c.entries, c.byBehavior) && id in c.entries && id !in ids
    ensures id !in EntriesAmong(c, ids) && c.entries[id].behavior !in BehaviorsAmong(c, ids)
    ensures EntriesAmong(c, ids + [id]) == EntriesAmong(c, ids)[id := c.entries[id]]
    ensures BehaviorsAmong(c, ids + [id]) == BehaviorsAmong(c, ids)[c.entries[id].behavior := id]
  {
  }

  lemma IndexedStep(s: seq<BehaviorEntry>, k: nat, m: map<Id, BehaviorEntry>, n: map<StableFeatures, Id>)
    requires k < |s| && Indexed(s[..k]) == Some((m, n)) && s[k].fingerprintId !in m && s[k].behavior !in n
    ensures Indexed(s[..k + 1]) == Some((m[s[k].fingerprintId := s[k]], n[s[k].behavior := s[k].fingerprintId]))
  {
    assert s[..k + 1][..k] == s[..k];
  }

  ghost predicate PrefixIndexed(c: CollectorState, k: nat) {
    && k <= |SortedEntries(c.entries)|
    && Indexed(SortedEntries(c.entries)[..k])
       == Some((EntriesAmong(c, SortIds(c.entries.Keys)[..k]), BehaviorsAmong(c, SortIds(c.entries.Keys)[..k])))
  }

  lemma SortedEntryAt(c: CollectorState, k: nat)
    requires Bijection(c.entries, c.byBehavior) && k < |SortedEntries(c.entries)|
    ensures var id := SortIds(c.entries.Keys)[k];
            && id in c.entries && SortedEntries(c.entries)[k] == c.entries[id] && c.entries[id].fingerprintId == id
            && id !in SortIds(c.entries.Keys)[..k]
  {
    AscendingDistinct(SortIds(c.entries.Keys));
  }

  lemma PrefixStep(c: CollectorState, ids: seq<Id>, s: seq<BehaviorEntry>, k: nat)
    requires Bijection(c.entries, c.byBehavior) && k < |ids| == |s|
    requires ids[k] in c.entries && s[k] == c.entries[ids[k]] && ids[k] !in ids[..k]
    requires Indexed(s[..k]) == Some((EntriesAmong(c, ids[..k]), BehaviorsAmong(c, ids[..k])))
    ensures Indexed(s[..k + 1]) == Some((EntriesAmong(c, ids[..k + 1]), BehaviorsAmong(c, ids[..k + 1])))
  {
    assert ids[..k + 1] == ids[..k] + [ids[k]];
    AmongGrows(c, ids[..k], ids[k]);
    IndexedStep(s, k, EntriesAmong(c, ids[..k]), BehaviorsAmong(c, ids[..k]));
  }

  lemma PrefixGrows(c: CollectorState, k: nat)
    requires Bijection(c.entries, c.byBehavior) && k < |SortedEntries(c.entries)| && PrefixIndexed(c, k)
    ensures PrefixIndexed(c, k + 1)
  {
    SortedEntryAt(c, k);
    PrefixStep(c, SortIds(c.entries.Keys), SortedEntries(c.entries), k);
  }

  lemma {:induction false} IndexedPrefix(c: CollectorState, k: nat)
    requires Bijection(c.entries, c.byBehavior) && k <= |SortedEntries(c.entries)|
    ensures PrefixIndexed(c, k)
  {
    if k == 0 {
      NothingAmong(c);
    } else {
      IndexedPrefix(c, k - 1);
      PrefixGrows(c, k - 1);
    }
  }

  lemma NothingAmong(c: CollectorState)
    ensures PrefixIndexed(c, 0)
  {
    var none := SortIds(c.entries.Keys)[..0];
    assert |EntriesAmong(c, none)| == 0 && |BehaviorsAmong(c, none)| == 0 by {
      assert EntriesAmong(c, none).Keys == {} && BehaviorsAmong(c, none).Keys == {};
    }
  }

  lemma EverythingAmong(c: CollectorState)
    requires Bijection(c.entries, c.byBehavior)
    ensures EntriesAmong(c, SortIds(c.entries.Keys)) == c.entries
    ensures BehaviorsAmong(c, SortIds(c.entries.Keys)) == c.byBehavior
  {
    var ids := SortIds(c.entries.Keys);
    forall id ensures id in c.entries <==> id in ids {
      assert id in ids <==> id in Elems(ids);
    }
  }

  /** Restoring a snapshot rebuilds the collector it was taken from, both indexes included. */
  lemma RestoreInvertsSnapshot(c: CollectorState)
    requires Bijection(c.entries, c.byBehavior)
    ensures Restored(SnapshotOf(c)) == Ok(c)
  {
    var ids, s := SortIds(c.entries.Keys), SortedEntries(c.entries);
    IndexedPrefix(c, |s|);
    assert s[..|s|] == s && ids[..|ids|] == ids;
    EverythingAmong(c);
  }

  // ---- The collector as the platform holds it -----------------------------------------------------------------

  class BehaviorCollector {
    const environment: string
    var observations: U64
    var entries: map<Id, BehaviorEntry>
    var byBehavior: map<StableFeatures, Id>
    var complete: bool

    ghost function State(): CollectorState
      reads this
    {
      CollectorState(environment, observations, entries, byBehavior, complete)
    }

    constructor (environment: string)
      ensures State() == NewCollector(environment)
    {
      this.environment := environment;
      observations := 0;
      entries := map[];
      byBehavior := map[];
      complete := true;
    }

    /** behaviorCollectorFromSnapshot's struct literal, once its loop has filled both maps. */
    constructor Rebuilt(environment: string, observations: U64, entries: map<Id, BehaviorEntry>, byBehavior: map<StableFeatures, Id>, complete: bool)
      ensures State() == CollectorState(environment, observations, entries, byBehavior, complete)
    {
      this.environment := environment;
      this.observations := observations;
      this.entries := entries;
      this.byBehavior := byBehavior;
      this.complete := complete;
    }

    /** Folds one record in; a refused record leaves the collector as it was, except that the 513th distinct behavior
        marks it incomplete. */
    method ObserveOperational(r: Record, f: Facts) returns (err: Option<IngestError>)
      modifies this
      ensures (State(), err) == Observed(old(State()), r, f)
    {
      if !complete {
        return Some(ErrBehaviorCapacity);
      }
      if observations == MAX_UINT64 {
        return Some(ErrBehaviorOverflow);
      }
      if r.eventId == "" || r.timestamp == 0 {
        return Some(ErrInvalidRecord);
      }
      if r.environment != environment {
        return Some(ErrEnvironmentMismatch);
      }
      if r.behavior.environment != r.environment || !ValidIdentity(r.fingerprintId, r.behavior) || !ValidFacts(f) {
        return Some(ErrInvalidRecord);
      }
      var existing := FreshEntry(r);
      var known := r.fingerprintId in entries;
      if known {
        existing := entries[r.fingerprintId];
        if existing.behavior != r.behavior {
          return Some(ErrFingerprintConflict);
        }
      } else {
        if r.behavior in byBehavior && byBehavior[r.behavior] != r.fingerprintId {
          return Some(ErrFingerprintConflict);
        }
        if |entries| >= MAX_BEHAVIOR_ENTRIES {
          complete := false;
          return Some(ErrBehaviorCapacity);
        }
      }
      var next := ObservedEntry(existing, r, f);
      if next.Err? {
        return Some(next.error);
      }
      observations := observations + 1;
      entries := entries[r.fingerprintId := next.value];
      if !known {
        byBehavior := byBehavior[r.behavior := r.fingerprintId];
      }
      err := None;
    }

    /** A detached copy, sorted by fingerprint whatever order the map yields its values in. */
    method Snapshot() returns (s: BehaviorSnapshot)
      ensures s == SnapshotOf(State())
    {
      var ids := SortSet(entries.Keys);
      assert forall i | 0 <= i < |ids| :: ids[i] in Elems(ids);
      var sorted: seq<BehaviorEntry> := [];
      for i := 0 to |ids|
        invariant |sorted| == i && forall k | 0 <= k < i :: ids[k] in entries && sorted[k] == entries[ids[k]]
      {
        sorted := sorted + [entries[ids[i]]];
      }
      assert sorted == SortedEntries(entries);
      s := BehaviorSnapshot(environment, observations, sorted, complete);
    }
  }

  /** Rebuilds a collector from trusted evidence, refusing a repeated fingerprint or behavior. */
  method CollectorFromSnapshot(s: BehaviorSnapshot) returns (ok: bool, c: BehaviorCollector)
    ensures fresh(c)
    ensures ok <==> Restored(s).Ok?
    ensures ok ==> Restored(s) == Ok(c.State())
  {
    var entries: map<Id, BehaviorEntry> := map[];
    var byBehavior: map<StableFeatures, Id> := map[];
    for i := 0 to |s.entries|
      invariant Indexed(s.entries[..i]) == Some((entries, byBehavior))
    {
      var e := s.entries[i];
      assert s.entries[..i + 1][..i] == s.entries[..i];
      if e.fingerprintId in entries || e.behavior in byBehavior {
        IndexedNoneStays(s.entries, i + 1);
        c := new BehaviorCollector(s.environment);
        return false, c;
      }
      entries := entries[e.fingerprintId := e];
      byBehavior := byBehavior[e.behavior := e.fingerprintId];
    }
    assert s.entries[..|s.entries|] == s.entries;
    c := new BehaviorCollector.Rebuilt(s.environment, s.observations, entries, byBehavior, s.complete);
    ok := true;
  }

  lemma {:induction false} IndexedNoneStays(entries: seq<BehaviorEntry>, n: nat)
    requires n <= |entries| && Indexed(entries[..n]).None?
    ensures Indexed(entries).None?
    decreases |entries| - n
  {
    if n == |entries| {
      assert entries[..n] == entries;
    } else {
      assert entries[..n + 1][..n] == entries[..n];
      IndexedNoneStays(entries, n + 1);
    }
  }
}
