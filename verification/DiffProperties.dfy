/** What a comparison's counts and deltas always satisfy. */
module DiffProperties {
  import opened Bounded
  import opened Ordering
  import opened BehaviorOperational
  import F = Fidelity
  import opened Aggregate
  import opened Collector
  import opened Evidence
  import opened Conservation
  import opened Graph
  import opened Counting
  import opened Retention
  import opened Diff

  // ---- Lists of deltas ----------------------------------------------------------------------------------------

  lemma {:induction false} TotalsConcat(a: seq<BehaviorDelta>, b: seq<BehaviorDelta>, p: Presence)
    ensures CountPresence(a + b, p) == CountPresence(a, p) + CountPresence(b, p)
    ensures ReferenceTotal(a + b) == ReferenceTotal(a) + ReferenceTotal(b)
    ensures CandidateTotal(a + b) == CandidateTotal(a) + CandidateTotal(b)
  {
    if b == [] {
      assert a + b == a;
    } else {
      assert (a + b)[..|a + b| - 1] == a + b[..|b| - 1];
      TotalsConcat(a, b[..|b| - 1], p);
    }
  }

  lemma {:induction false} InsertKeeps(s: seq<BehaviorDelta>, d: BehaviorDelta, p: Presence)
    ensures CountPresence(InsertDelta(s, d), p) == CountPresence(s + [d], p)
    ensures ReferenceTotal(InsertDelta(s, d)) == ReferenceTotal(s + [d])
    ensures CandidateTotal(InsertDelta(s, d)) == CandidateTotal(s + [d])
    ensures multiset(InsertDelta(s, d)) == multiset(s) + multiset{d}
  {
    TotalsConcat(s, [d], p);
    if s != [] && Less(d.fingerprintId, s[|s| - 1].fingerprintId) {
      var init, last := s[..|s| - 1], s[|s| - 1];
      assert s == init + [last];
      InsertKeeps(init, d, p);
      TotalsConcat(init, [last], p);
      TotalsConcat(init, [d], p);
      TotalsConcat(InsertDelta(init, d), [last], p);
    }
  }

  lemma {:induction false} SortKeeps(s: seq<BehaviorDelta>, p: Presence)
    ensures CountPresence(SortDeltas(s), p) == CountPresence(s, p)
    ensures ReferenceTotal(SortDeltas(s)) == ReferenceTotal(s)
    ensures CandidateTotal(SortDeltas(s)) == CandidateTotal(s)
    ensures multiset(SortDeltas(s)) == multiset(s) && |SortDeltas(s)| == |s|
  {
    if s != [] {
      var init, last := s[..|s| - 1], s[|s| - 1];
      assert s == init + [last];
      SortKeeps(init, p);
      InsertKeeps(SortDeltas(init), last, p);
      TotalsConcat(SortDeltas(init), [last], p);
      TotalsConcat(init, [last], p);
      assert |SortDeltas(s)| == |multiset(SortDeltas(s))|;
    }
  }

  ghost predicate DeltasAscending(s: seq<BehaviorDelta>) {
    forall i, j | 0 <= i < j < |s| :: Less(s[i].fingerprintId, s[j].fingerprintId)
  }

  ghost predicate FreshIn(s: seq<BehaviorDelta>, id: Id) {
    forall i | 0 <= i < |s| :: s[i].fingerprintId != id
  }

  ghost predicate DistinctDeltas(s: seq<BehaviorDelta>) {
    forall i, j | 0 <= i < j < |s| :: s[i].fingerprintId != s[j].fingerprintId
  }

  lemma {:induction false} InsertAscends(s: seq<BehaviorDelta>, d: BehaviorDelta)
    requires DeltasAscending(s) && FreshIn(s, d.fingerprintId)
    ensures DeltasAscending(InsertDelta(s, d))
    ensures forall x | x in InsertDelta(s, d) :: x in s || x == d
  {
    if s != [] {
      var init, last := s[..|s| - 1], s[|s| - 1];
      LessTotal(last.fingerprintId, d.fingerprintId);
      if Less(d.fingerprintId, last.fingerprintId) {
        InsertAscends(init, d);
        var t := InsertDelta(init, d);
        forall i | 0 <= i < |t| ensures Less(t[i].fingerprintId, last.fingerprintId) {
          assert t[i] in t;
          if t[i] in init {
            var k :| 0 <= k < |init| && init[k] == t[i];
            assert s[k] == t[i];
          }
        }
      } else {
        AppendAscends(s, d);
      }
    }
  }

  lemma InsertedFresh(s: seq<BehaviorDelta>, d: BehaviorDelta, id: Id)
    requires FreshIn(s, id) && d.fingerprintId != id && forall x | x in InsertDelta(s, d) :: x in s || x == d
    ensures FreshIn(InsertDelta(s, d), id)
  {
    hide InsertDelta;
    var t := InsertDelta(s, d);
    forall i | 0 <= i < |t| ensures t[i].fingerprintId != id {
      assert t[i] in t;
    }
  }

  lemma AppendAscends(s: seq<BehaviorDelta>, d: BehaviorDelta)
    requires DeltasAscending(s) && s != [] && Less(s[|s| - 1].fingerprintId, d.fingerprintId)
    ensures DeltasAscending(s + [d])
  {
    forall i | 0 <= i < |s| ensures Less(s[i].fingerprintId, d.fingerprintId) {
      if i < |s| - 1 {
        LessTransitive(s[i].fingerprintId, s[|s| - 1].fingerprintId, d.fingerprintId);
      }
    }
  }

  lemma {:induction false} SortAscends(s: seq<BehaviorDelta>)
    requires DistinctDeltas(s)
    ensures DeltasAscending(SortDeltas(s))
    ensures forall id | FreshIn(s, id) :: FreshIn(SortDeltas(s), id)
  {
    if s != [] {
      var init, last := s[..|s| - 1], s[|s| - 1];
      SortAscends(init);
      assert FreshIn(init, last.fingerprintId);
      InsertAscends(SortDeltas(init), last);
      forall id | FreshIn(s, id) ensures FreshIn(SortDeltas(s), id) {
        assert FreshIn(init, id);
        assert s[|s| - 1].fingerprintId != id;
        InsertedFresh(SortDeltas(init), last, id);
      }
    }
  }

  // ---- The identities both sides observed ---------------------------------------------------------------------

  function Within(ids: seq<Id>, s: set<Id>): seq<Id> {
    if ids == [] then []
    else Within(ids[..|ids| - 1], s) + (if ids[|ids| - 1] in s then [ids[|ids| - 1]] else [])
  }

  lemma {:induction false} WithinElems(ids: seq<Id>, s: set<Id>)
    ensures Elems(Within(ids, s)) == Elems(ids) * s && |Within(ids, s)| <= |ids|
  {
    if ids != [] {
      var init, last := ids[..|ids| - 1], ids[|ids| - 1];
      assert ids == init + [last];
      WithinElems(init, s);
      assert Elems(ids) == Elems(init) + {last};
      if last in s {
        assert Elems(Within(init, s) + [last]) == Elems(Within(init, s)) + {last};
      } else {
        assert Within(init, s) + [] == Within(init, s);
      }
    }
  }

  lemma {:induction false} WithinAscends(ids: seq<Id>, s: set<Id>)
    requires Ascending(ids)
    ensures Ascending(Within(ids, s))
  {
    if ids != [] {
      var init, last := ids[..|ids| - 1], ids[|ids| - 1];
      WithinAscends(init, s);
      WithinElems(init, s);
      var w := Within(init, s);
      forall i | 0 <= i < |w| ensures Less(w[i], last) {
        assert w[i] in Elems(w);
        var k :| 0 <= k < |init| && init[k] == w[i];
        assert Less(ids[k], ids[|ids| - 1]);
      }
    }
  }

  lemma IdsAscend(entries: seq<BehaviorEntry>)
    requires EntriesAscending(entries)
    ensures Ascending(IdsOf(entries))
  {
  }

  /** Read from either side, the shared identities are the same list. */
  lemma SharedIsOneList(r: seq<BehaviorEntry>, c: seq<BehaviorEntry>)
    requires EntriesAscending(r) && EntriesAscending(c)
    ensures Within(IdsOf(c), Elems(IdsOf(r))) == Within(IdsOf(r), Elems(IdsOf(c)))
  {
    hide Within, IdsOf;
    IdsAscend(r);
    IdsAscend(c);
    var a, b := Within(IdsOf(c), Elems(IdsOf(r))), Within(IdsOf(r), Elems(IdsOf(c)));
    WithinElems(IdsOf(c), Elems(IdsOf(r)));
    WithinElems(IdsOf(r), Elems(IdsOf(c)));
    WithinAscends(IdsOf(c), Elems(IdsOf(r)));
    WithinAscends(IdsOf(r), Elems(IdsOf(c)));
    assert Elems(a) == Elems(b);
    AscendingUnique(a, b);
  }

  function ObservedBy(ids: seq<Id>, byId: map<Id, BehaviorEntry>): nat {
    if ids == [] then 0
    else ObservedBy(ids[..|ids| - 1], byId) + (if ids[|ids| - 1] in byId then byId[ids[|ids| - 1]].observations else 0)
  }

  lemma ObservedBySnoc(ids: seq<Id>, id: Id, byId: map<Id, BehaviorEntry>)
    ensures ObservedBy(ids + [id], byId) == ObservedBy(ids, byId) + (if id in byId then byId[id].observations else 0)
  {
    assert (ids + [id])[..|ids|] == ids;
  }

  lemma IdsOfInit(entries: seq<BehaviorEntry>)
    requires entries != []
    ensures IdsOf(entries)[..|entries| - 1] == IdsOf(entries[..|entries| - 1])
    ensures |IdsOf(entries)| == |entries| && IdsOf(entries)[|entries| - 1] == entries[|entries| - 1].fingerprintId
  {
  }

  lemma CountsSnoc(ds: seq<BehaviorDelta>, d: BehaviorDelta)
    ensures forall p :: CountPresence(ds + [d], p) == CountPresence(ds, p) + (if d.presence == p then 1 else 0)
    ensures CandidateTotal(ds + [d]) == CandidateTotal(ds) + d.candidateCount
    ensures ReferenceTotal(ds + [d]) == ReferenceTotal(ds) + d.referenceCount
  {
    assert (ds + [d])[..|ds|] == ds;
  }

  lemma WithinSnoc(c: seq<BehaviorEntry>, s: set<Id>)
    requires c != []
    ensures var init, id := Within(IdsOf(c[..|c| - 1]), s), c[|c| - 1].fingerprintId;
            Within(IdsOf(c), s) == if id in s then init + [id] else init
  {
    IdsOfInit(c);
  }

  /** What the deltas of a candidate count, given its total and the shared identities. */
  ghost predicate DeltasCount(ds: seq<BehaviorDelta>, n: nat, both: seq<Id>, total: nat, byId: map<Id, BehaviorEntry>) {
    && |ds| == n && |both| <= n
    && CountPresence(ds, BehaviorShared) == |both| && CountPresence(ds, BehaviorAdded) == n - |both|
    && CountPresence(ds, BehaviorRemoved) == 0
    && CandidateTotal(ds) == total && ReferenceTotal(ds) == ObservedBy(both, byId)
  }

  lemma DeltasCountNext(ds: seq<BehaviorDelta>, n: nat, both: seq<Id>, total: nat, byId: map<Id, BehaviorEntry>, e: BehaviorEntry)
    requires DeltasCount(ds, n, both, total, byId)
    ensures DeltasCount(ds + [CandidateDelta(byId, e)], n + 1, if e.fingerprintId in byId then both + [e.fingerprintId] else both,
                        total + e.observations, byId)
  {
    hide CountPresence, CandidateTotal, ReferenceTotal, ObservedBy;
    CountsSnoc(ds, CandidateDelta(byId, e));
    ObservedBySnoc(both, e.fingerprintId, byId);
  }

  lemma {:induction false} CandidateDeltasCount(byId: map<Id, BehaviorEntry>, c: seq<BehaviorEntry>)
    ensures DeltasCount(CandidateDeltas(byId, c), |c|, Within(IdsOf(c), byId.Keys), EntryTotal(c), byId)
  {
    if c != [] {
      hide IdsOf, Within, DeltasCount, CandidateDelta;
      CandidateDeltasCount(byId, c[..|c| - 1]);
      WithinSnoc(c, byId.Keys);
      DeltasCountNext(CandidateDeltas(byId, c[..|c| - 1]), |c| - 1, Within(IdsOf(c[..|c| - 1]), byId.Keys), EntryTotal(c[..|c| - 1]), byId,
                      c[|c| - 1]);
    }
  }

  lemma {:induction false} RemovedDeltasCount(candidateIds: set<Id>, r: seq<BehaviorEntry>)
    ensures var ds, both := RemovedDeltas(candidateIds, r), Within(IdsOf(r), candidateIds);
            && |both| + |ds| == |r|
            && CountPresence(ds, BehaviorRemoved) == |ds| && CountPresence(ds, BehaviorAdded) == CountPresence(ds, BehaviorShared) == 0
            && CandidateTotal(ds) == 0
  {
    if r != [] {
      RemovedDeltasCount(candidateIds, r[..|r| - 1]);
      IdsOfInit(r);
    }
  }

  lemma {:induction false} RemovedDeltasTotal(candidateIds: set<Id>, byId: map<Id, BehaviorEntry>, r: seq<BehaviorEntry>)
    requires forall i | 0 <= i < |r| :: r[i].fingerprintId in byId && byId[r[i].fingerprintId] == r[i]
    ensures ReferenceTotal(RemovedDeltas(candidateIds, r)) + ObservedBy(Within(IdsOf(r), candidateIds), byId) == EntryTotal(r)
  {
    if r != [] {
      var init, last := r[..|r| - 1], r[|r| - 1];
      RemovedDeltasTotal(candidateIds, byId, init);
      IdsOfInit(r);
      assert byId[last.fingerprintId] == last;
      WithinOneMore(IdsOf(init), last.fingerprintId, candidateIds, byId);
      assert IdsOf(r) == IdsOf(init) + [last.fingerprintId];
    }
  }

  lemma WithinOneMore(ids: seq<Id>, id: Id, s: set<Id>, byId: map<Id, BehaviorEntry>)
    requires id in byId
    ensures ObservedBy(Within(ids + [id], s), byId) == ObservedBy(Within(ids, s), byId) + (if id in s then byId[id].observations else 0)
  {
    assert (ids + [id])[..|ids|] == ids;
    ObservedBySnoc(Within(ids, s), id, byId);
    assert Within(ids, s) + [] == Within(ids, s);
  }

  lemma ByIdKeys(entries: seq<BehaviorEntry>)
    ensures ById(entries).Keys == Elems(IdsOf(entries))
  {
    forall id ensures id in ById(entries) <==> id in Elems(IdsOf(entries)) {
      ByIdFinds(entries, id);
      if id in ById(entries) {
        var i :| 0 <= i < |entries| && entries[i].fingerprintId == id;
        assert IdsOf(entries)[i] == id;
      }
    }
  }

  /** The counts of a comparison: what was added and shared is the candidate, what was removed and shared the reference, and
      each side's per-behavior counts add up to all it observed. */
  ghost predicate Partitions(d: BehaviorDiff) {
    && d.added + d.shared == d.candidateDistinct && d.removed + d.shared == d.referenceDistinct
    && |d.deltas| == d.added + d.removed + d.shared
    && d.added == CountPresence(d.deltas, BehaviorAdded) && d.removed == CountPresence(d.deltas, BehaviorRemoved)
    && d.shared == CountPresence(d.deltas, BehaviorShared)
    && ReferenceTotal(d.deltas) == d.referenceObservations && CandidateTotal(d.deltas) == d.candidateObservations
  }

  lemma RawDeltasPartition(r: seq<BehaviorEntry>, c: seq<BehaviorEntry>)
    requires EntriesAscending(r) && EntriesAscending(c)
    ensures var raw := RawDeltas(r, c);
            && CountPresence(raw, BehaviorAdded) + CountPresence(raw, BehaviorShared) == |c|
            && CountPresence(raw, BehaviorRemoved) + CountPresence(raw, BehaviorShared) == |r|
            && |raw| == CountPresence(raw, BehaviorAdded) + CountPresence(raw, BehaviorRemoved) + CountPresence(raw, BehaviorShared)
            && ReferenceTotal(raw) == EntryTotal(r) && CandidateTotal(raw) == EntryTotal(c)
  {
    hide Within, IdsOf, ById, CountPresence, ReferenceTotal, CandidateTotal, CandidateDeltas, RemovedDeltas, EntryTotal, ObservedBy;
    var byId, candidateIds := ById(r), Elems(IdsOf(c));
    var a, b := CandidateDeltas(byId, c), RemovedDeltas(candidateIds, r);
    ByIdKeys(r);
    forall i | 0 <= i < |r| ensures r[i].fingerprintId in byId && byId[r[i].fingerprintId] == r[i] {
      ByIdAt(r, i);
    }
    CandidateDeltasCount(byId, c);
    RemovedDeltasCount(candidateIds, r);
    RemovedDeltasTotal(candidateIds, byId, r);
    SharedIsOneList(r, c);
    TotalsConcat(a, b, BehaviorAdded);
    TotalsConcat(a, b, BehaviorRemoved);
    TotalsConcat(a, b, BehaviorShared);
  }

  lemma DiffPartitions(reference: BehaviorSnapshot, candidate: BehaviorSnapshot)
    requires Bound(reference) && Bound(candidate) && Compared(reference, candidate).Ok?
    ensures Partitions(Compared(reference, candidate).value)
  {
    hide CountPresence, ReferenceTotal, CandidateTotal, RawDeltas, SortDeltas, Plus, AddEntries, Consistent, AddedIdentities, CompareOperational;
    var raw := RawDeltas(reference.entries, candidate.entries);
    RawDeltasPartition(reference.entries, candidate.entries);
    SortKeeps(raw, BehaviorAdded);
    SortKeeps(raw, BehaviorRemoved);
    SortKeeps(raw, BehaviorShared);
  }

  // ---- What each delta says -----------------------------------------------------------------------------------

  /** The delta of an identity, read off both sides without regard to which is compared to which. */
  function RightDelta(r: map<Id, BehaviorEntry>, c: map<Id, BehaviorEntry>, id: Id): BehaviorDelta
    requires id in r || id in c
  {
    BehaviorDelta(
      id, if id in c then c[id].behavior else r[id].behavior,
      if id in r && id in c then BehaviorShared else if id in c then BehaviorAdded else BehaviorRemoved,
      if id in r then r[id].observations else 0, if id in c then c[id].observations else 0,
      if id in r then r[id].fidelity else F.NO_FIDELITY, if id in c then c[id].fidelity else F.NO_FIDELITY)
  }

  ghost predicate IsRight(r: seq<BehaviorEntry>, c: seq<BehaviorEntry>, d: BehaviorDelta) {
    && (d.fingerprintId in ById(r) || d.fingerprintId in ById(c))
    && d == RightDelta(ById(r), ById(c), d.fingerprintId)
  }

  lemma {:induction false} CandidateDeltaAt(byId: map<Id, BehaviorEntry>, c: seq<BehaviorEntry>, i: nat)
    requires i < |c|
    ensures |CandidateDeltas(byId, c)| == |c| && CandidateDeltas(byId, c)[i] == CandidateDelta(byId, c[i])
  {
    if i < |c| - 1 {
      CandidateDeltaAt(byId, c[..|c| - 1], i);
    } else if |c| > 1 {
      CandidateDeltaAt(byId, c[..|c| - 1], 0);
    }
  }

  lemma {:induction false} CandidateDeltasSize(byId: map<Id, BehaviorEntry>, c: seq<BehaviorEntry>)
    ensures |CandidateDeltas(byId, c)| == |c|
  {
    if c != [] {
      CandidateDeltasSize(byId, c[..|c| - 1]);
    }
  }

  lemma {:induction false} RemovedDeltaFrom(candidateIds: set<Id>, r: seq<BehaviorEntry>, k: nat) returns (i: nat)
    requires k < |RemovedDeltas(candidateIds, r)|
    ensures i < |r| && RemovedDeltas(candidateIds, r)[k] == RemovedDelta(r[i]) && r[i].fingerprintId !in candidateIds
    ensures forall m | 0 <= m < k :: RemovedDeltas(candidateIds, r)[m].fingerprintId in IdsOf(r[..i])
  {
    var init, last := r[..|r| - 1], r[|r| - 1];
    var ds, before := RemovedDeltas(candidateIds, r), RemovedDeltas(candidateIds, init);
    if k < |before| {
      i := RemovedDeltaFrom(candidateIds, init, k);
      assert init[..i] == r[..i];
    } else {
      i := |r| - 1;
      forall m | 0 <= m < k ensures ds[m].fingerprintId in IdsOf(r[..i]) {
        var j := RemovedDeltaFrom(candidateIds, init, m);
        assert IdsOf(init)[j] == ds[m].fingerprintId;
      }
    }
  }

  lemma {:induction false} RemovedDeltaOf(candidateIds: set<Id>, r: seq<BehaviorEntry>, i: nat)
    requires i < |r| && r[i].fingerprintId !in candidateIds
    ensures RemovedDelta(r[i]) in RemovedDeltas(candidateIds, r)
  {
    if i < |r| - 1 {
      RemovedDeltaOf(candidateIds, r[..|r| - 1], i);
    }
  }

  lemma CandidateDeltaRight(r: seq<BehaviorEntry>, c: seq<BehaviorEntry>, i: nat)
    requires EntriesAscending(c) && i < |c|
    ensures IsRight(r, c, CandidateDelta(ById(r), c[i]))
  {
    ByIdAt(c, i);
  }

  lemma RemovedDeltaRight(r: seq<BehaviorEntry>, c: seq<BehaviorEntry>, i: nat)
    requires EntriesAscending(r) && i < |r| && r[i].fingerprintId !in Elems(IdsOf(c))
    ensures IsRight(r, c, RemovedDelta(r[i]))
  {
    ByIdAt(r, i);
    ByIdKeys(c);
  }

  lemma RawDeltaRight(r: seq<BehaviorEntry>, c: seq<BehaviorEntry>, k: nat)
    requires EntriesAscending(r) && EntriesAscending(c) && k < |RawDeltas(r, c)|
    ensures IsRight(r, c, RawDeltas(r, c)[k])
  {
    hide IsRight, CandidateDelta, RemovedDelta;
    CandidateDeltasSize(ById(r), c);
    if k < |c| {
      CandidateDeltaAt(ById(r), c, k);
      CandidateDeltaRight(r, c, k);
    } else {
      var i := RemovedDeltaFrom(Elems(IdsOf(c)), r, k - |c|);
      RemovedDeltaRight(r, c, i);
    }
  }

  lemma CandidateIdAt(c: seq<BehaviorEntry>, byId: map<Id, BehaviorEntry>, i: nat)
    requires i < |c|
    ensures |CandidateDeltas(byId, c)| == |c| && CandidateDeltas(byId, c)[i].fingerprintId == c[i].fingerprintId
  {
    CandidateDeltaAt(byId, c, i);
  }

  lemma RawDeltasDistinct(r: seq<BehaviorEntry>, c: seq<BehaviorEntry>)
    requires EntriesAscending(r) && EntriesAscending(c)
    ensures DistinctDeltas(RawDeltas(r, c))
  {
    var raw := RawDeltas(r, c);
    CandidateDeltasSize(ById(r), c);
    forall k, m | 0 <= k < m < |raw| ensures raw[k].fingerprintId != raw[m].fingerprintId {
      RawDeltaPairDistinct(r, c, k, m);
    }
  }

  lemma RawDeltaPairDistinct(r: seq<BehaviorEntry>, c: seq<BehaviorEntry>, k: nat, m: nat)
    requires EntriesAscending(r) && EntriesAscending(c) && k < m < |RawDeltas(r, c)|
    ensures RawDeltas(r, c)[k].fingerprintId != RawDeltas(r, c)[m].fingerprintId
  {
    hide CandidateDelta;
    CandidateDeltasSize(ById(r), c);
    if m < |c| {
      CandidateIdAt(c, ById(r), k);
      CandidateIdAt(c, ById(r), m);
      LessAsymmetric(c[k].fingerprintId, c[m].fingerprintId);
    } else {
      var i := RemovedDeltaFrom(Elems(IdsOf(c)), r, m - |c|);
      if k < |c| {
        CandidateIdAt(c, ById(r), k);
        assert IdsOf(c)[k] in Elems(IdsOf(c));
      } else {
        var id := RawDeltas(r, c)[k].fingerprintId;
        assert id in IdsOf(r[..i]);
        var j :| 0 <= j < i && IdsOf(r[..i])[j] == id;
        LessAsymmetric(r[j].fingerprintId, r[i].fingerprintId);
      }
    }
  }

  ghost predicate MentionsId(s: seq<BehaviorDelta>, id: Id) {
    exists k :: 0 <= k < |s| && s[k].fingerprintId == id
  }

  lemma EveryIdentityMentioned(r: seq<BehaviorEntry>, c: seq<BehaviorEntry>, id: Id)
    requires id in ById(r) || id in ById(c)
    ensures MentionsId(RawDeltas(r, c), id)
  {
    hide CandidateDelta;
    var raw := RawDeltas(r, c);
    ByIdKeys(c);
    CandidateDeltasSize(ById(r), c);
    if id in ById(c) {
      ByIdFinds(c, id);
      var i :| 0 <= i < |c| && c[i].fingerprintId == id;
      CandidateIdAt(c, ById(r), i);
      assert raw[i].fingerprintId == id;
    } else {
      ByIdFinds(r, id);
      var i :| 0 <= i < |r| && r[i].fingerprintId == id;
      RemovedDeltaOf(Elems(IdsOf(c)), r, i);
      assert RemovedDelta(r[i]) in raw;
    }
  }

  lemma MentionsSurvive(a: seq<BehaviorDelta>, b: seq<BehaviorDelta>, id: Id)
    requires multiset(a) == multiset(b) && MentionsId(a, id)
    ensures MentionsId(b, id)
  {
    var k :| 0 <= k < |a| && a[k].fingerprintId == id;
    assert a[k] in multiset(b);
    var m :| 0 <= m < |b| && b[m] == a[k];
  }

  /** The deltas are sorted by fingerprint, cover exactly the identities of either side, and each is the one its identity's
      entries call for. */
  ghost predicate DeltasAreRight(r: seq<BehaviorEntry>, c: seq<BehaviorEntry>, deltas: seq<BehaviorDelta>) {
    && DeltasAscending(deltas)
    && (forall k | 0 <= k < |deltas| :: IsRight(r, c, deltas[k]))
    && forall id | id in ById(r) || id in ById(c) :: MentionsId(deltas, id)
  }

  lemma DiffDeltasRight(r: seq<BehaviorEntry>, c: seq<BehaviorEntry>)
    requires EntriesAscending(r) && EntriesAscending(c)
    ensures DeltasAreRight(r, c, SortDeltas(RawDeltas(r, c)))
  {
    hide RawDeltas, SortDeltas, IsRight, DistinctDeltas, DeltasAscending, MentionsId, ById;
    var raw := RawDeltas(r, c);
    var deltas := SortDeltas(raw);
    SortKeeps(raw, BehaviorAdded);
    RawDeltasDistinct(r, c);
    SortAscends(raw);
    forall k | 0 <= k < |deltas| ensures IsRight(r, c, deltas[k]) {
      assert deltas[k] in multiset(deltas);
      var i :| 0 <= i < |raw| && raw[i] == deltas[k];
      RawDeltaRight(r, c, i);
    }
    forall id | id in ById(r) || id in ById(c) ensures MentionsId(deltas, id) {
      EveryIdentityMentioned(r, c, id);
      MentionsSurvive(raw, deltas, id);
    }
  }

  // ---- Swapping the sides -------------------------------------------------------------------------------------

  function Opposite(p: Presence): Presence {
    match p case BehaviorAdded => BehaviorRemoved case BehaviorRemoved => BehaviorAdded case BehaviorShared => BehaviorShared
  }

  function Mirror(d: BehaviorDelta): BehaviorDelta {
    BehaviorDelta(d.fingerprintId, d.behavior, Opposite(d.presence), d.candidateCount, d.referenceCount, d.candidateFidelity, d.referenceFidelity)
  }

  lemma RightDeltaMirrors(r: seq<BehaviorEntry>, c: seq<BehaviorEntry>, d: BehaviorDelta, e: BehaviorDelta)
    requires Consistent(r, c) && IsRight(r, c, d) && IsRight(c, r, e) && d.fingerprintId == e.fingerprintId
    ensures e == Mirror(d)
  {
    var id := d.fingerprintId;
    if id in ById(r) && id in ById(c) {
      ByIdFinds(r, id);
      ByIdFinds(c, id);
      var i :| 0 <= i < |r| && r[i] == ById(r)[id];
      var j :| 0 <= j < |c| && c[j] == ById(c)[id];
    }
  }

  function DeltaIds(s: seq<BehaviorDelta>): seq<Id> {
    seq(|s|, i requires 0 <= i < |s| => s[i].fingerprintId)
  }

  lemma RightIds(r: seq<BehaviorEntry>, c: seq<BehaviorEntry>, deltas: seq<BehaviorDelta>)
    requires DeltasAreRight(r, c, deltas)
    ensures Ascending(DeltaIds(deltas)) && Elems(DeltaIds(deltas)) == ById(r).Keys + ById(c).Keys
  {
    hide ById, RightDelta;
    forall id ensures id in Elems(DeltaIds(deltas)) <==> id in ById(r).Keys + ById(c).Keys {
      if id in DeltaIds(deltas) {
        var k :| 0 <= k < |deltas| && DeltaIds(deltas)[k] == id;
        assert IsRight(r, c, deltas[k]);
      }
      if id in ById(r) || id in ById(c) {
        assert MentionsId(deltas, id);
        var k :| 0 <= k < |deltas| && deltas[k].fingerprintId == id;
        assert DeltaIds(deltas)[k] == id;
      }
    }
  }

  lemma MirroredDeltas(r: seq<BehaviorEntry>, c: seq<BehaviorEntry>, ds: seq<BehaviorDelta>, es: seq<BehaviorDelta>)
    requires Consistent(r, c) && DeltasAreRight(r, c, ds) && DeltasAreRight(c, r, es)
    ensures |es| == |ds| && forall k | 0 <= k < |ds| :: es[k] == Mirror(ds[k])
  {
    hide Consistent, IsRight, Mirror, ById;
    RightIds(r, c, ds);
    RightIds(c, r, es);
    AscendingUnique(DeltaIds(ds), DeltaIds(es));
    assert |DeltaIds(ds)| == |ds| && |DeltaIds(es)| == |es|;
    forall k | 0 <= k < |ds| ensures es[k] == Mirror(ds[k]) {
      assert DeltaIds(ds)[k] == DeltaIds(es)[k];
      RightDeltaMirrors(r, c, ds[k], es[k]);
    }
  }

  lemma {:induction false} MirroredCounts(ds: seq<BehaviorDelta>, es: seq<BehaviorDelta>, p: Presence)
    requires |es| == |ds| && forall k | 0 <= k < |ds| :: es[k] == Mirror(ds[k])
    ensures CountPresence(es, Opposite(p)) == CountPresence(ds, p)
  {
    if ds != [] {
      MirroredCounts(ds[..|ds| - 1], es[..|es| - 1], p);
    }
  }

  function OtherSide(u: Unavailability): Unavailability {
    match u
    case ReferenceUnavailable => CandidateUnavailable
    case CandidateUnavailable => ReferenceUnavailable
    case _ => u
  }

  /** The comparison the other way round: the same deltas mirrored, so added and removed trade places, as do the two sides'
      sums and the side without evidence. */
  ghost predicate Swapped(d: BehaviorDiff, e: BehaviorDiff) {
    && |e.deltas| == |d.deltas| && (forall k | 0 <= k < |d.deltas| :: e.deltas[k] == Mirror(d.deltas[k]))
    && e.added == d.removed && e.removed == d.added && e.shared == d.shared
    && e.referenceDistinct == d.candidateDistinct && e.candidateDistinct == d.referenceDistinct
    && e.referenceObservations == d.candidateObservations && e.candidateObservations == d.referenceObservations
    && OperationalSwapped(d.operational, e.operational)
  }

  predicate OperationalSwapped(a: OperationalComparison, b: OperationalComparison) {
    && b.reference == a.candidate && b.candidate == a.reference
    && b.latency == OtherSide(a.latency) && b.errors == OtherSide(a.errors) && b.tokens == OtherSide(a.tokens)
  }

  lemma SwapComparable(reference: BehaviorSnapshot, candidate: BehaviorSnapshot)
    ensures Compared(reference, candidate).Ok? <==> Compared(candidate, reference).Ok?
    ensures Compared(reference, candidate).Ok? ==> Consistent(reference.entries, candidate.entries)
  {
    hide Plus, AddEntries, DiffOf;
    assert Consistent(reference.entries, candidate.entries) <==> Consistent(candidate.entries, reference.entries);
  }

  lemma ComparedDeltas(reference: BehaviorSnapshot, candidate: BehaviorSnapshot)
    requires Bound(reference) && Bound(candidate) && Compared(reference, candidate).Ok?
    ensures DeltasAreRight(reference.entries, candidate.entries, Compared(reference, candidate).value.deltas)
  {
    hide Plus, AddEntries, Consistent, RawDeltas, SortDeltas, DeltasAreRight, CountPresence, AddedIdentities, CompareOperational;
    DiffDeltasRight(reference.entries, candidate.entries);
  }

  lemma ComparedShape(reference: BehaviorSnapshot, candidate: BehaviorSnapshot)
    requires Compared(reference, candidate).Ok? && Compared(candidate, reference).Ok?
    ensures var d, e := Compared(reference, candidate).value, Compared(candidate, reference).value;
            && e.referenceDistinct == d.candidateDistinct && e.candidateDistinct == d.referenceDistinct
            && e.referenceObservations == d.candidateObservations && e.candidateObservations == d.referenceObservations
            && OperationalSwapped(d.operational, e.operational)
  {
    hide Plus, AddEntries, Consistent, RawDeltas, SortDeltas, CountPresence, AddedIdentities, LatencyAvailable, ErrorsAvailable, TokensAvailable;
  }

  /** Swapping the sides succeeds exactly when comparing did, and mirrors the result. */
  lemma DiffSwaps(reference: BehaviorSnapshot, candidate: BehaviorSnapshot)
    requires Bound(reference) && Bound(candidate) && Compared(reference, candidate).Ok?
    ensures Compared(candidate, reference).Ok?
    ensures Swapped(Compared(reference, candidate).value, Compared(candidate, reference).value)
  {
    hide Compared, Bound, Consistent, DeltasAreRight, Mirror, CountPresence, OperationalSwapped;
    SwapComparable(reference, candidate);
    var d, e := Compared(reference, candidate).value, Compared(candidate, reference).value;
    ComparedDeltas(reference, candidate);
    ComparedDeltas(candidate, reference);
    MirroredDeltas(reference.entries, candidate.entries, d.deltas, e.deltas);
    MirroredCounts(d.deltas, e.deltas, BehaviorAdded);
    MirroredCounts(d.deltas, e.deltas, BehaviorRemoved);
    MirroredCounts(d.deltas, e.deltas, BehaviorShared);
    DiffPartitions(reference, candidate);
    DiffPartitions(candidate, reference);
    ComparedShape(reference, candidate);
  }

  // ---- Stored snapshots can be compared -----------------------------------------------------------------------

  lemma {:induction false} IndexedDistinct(entries: seq<BehaviorEntry>)
    requires Indexed(entries).Some?
    ensures forall i | 0 <= i < |entries| :: entries[i].behavior in Indexed(entries).value.1
    ensures forall i, j | 0 <= i < j < |entries| :: entries[i].behavior != entries[j].behavior
  {
    if entries != [] {
      var init := entries[..|entries| - 1];
      IndexedDistinct(init);
      forall i | 0 <= i < |init| ensures entries[i].behavior in Indexed(init).value.1 {
        assert entries[i] == init[i];
      }
      forall i, j | 0 <= i < j < |entries| ensures entries[i].behavior != entries[j].behavior {
        assert entries[i] == init[i];
        if j < |init| {
          assert entries[j] == init[j];
        }
      }
    }
  }

  /** What the restore-time validator lets through is what a comparison asks of its snapshots. */
  lemma RestoredIsBound(s: BehaviorSnapshot, distinct: nat)
    requires RestoredSnapshotValid(s, distinct)
    ensures Bound(s)
  {
    hide EntryFits, Indexed;
    IndexedDistinct(s.entries);
  }
}
