/** platform/counting.go: recorded parentage derived from a run's retained observations, and the counting fold over
    the added identities of a comparison (ADR 0052). */
module Counting {
  import opened Bounded
  import opened Ordering
  import opened Graph

  /** The part of a retained observation the correlation and paging code reads. */
  datatype Observation = Observation(
    sequence: U64, fingerprintId: Id, traceId: string, spanId: string, parentSpanId: string, newBehavior: bool)

  datatype SpanRef = SpanRef(trace: string, span: string)

  datatype CorrelationState = CorrelationUnavailable | CorrelationComplete | CorrelationPartial

  datatype BehaviorChange = BehaviorChange(root: Id, contributors: seq<Id>)

  /** The child-to-parents relation over identities, the identities with an occurrence nothing explains, and whether
      a span reference was ambiguous. */
  datatype Parentage = Parentage(parents: map<Id, set<Id>>, independent: set<Id>, degraded: bool)

  function ParentsOf(p: Parentage, id: Id): set<Id> {
    if id in p.parents then p.parents[id] else {}
  }

  // ---- The occurrence-level rule ------------------------------------------------------------------------------

  predicate NamesSpan(o: Observation) {
    o.traceId != "" && o.spanId != "" && o.fingerprintId != ""
  }

  predicate Carries(o: Observation, ref: SpanRef, id: Id) {
    NamesSpan(o) && o.traceId == ref.trace && o.spanId == ref.span && o.fingerprintId == id
  }

  predicate ReferencesParent(o: Observation) {
    o.parentSpanId != "" && o.traceId != ""
  }

  function ParentRef(o: Observation): SpanRef {
    SpanRef(o.traceId, o.parentSpanId)
  }

  /** The occurrence's parent reference names, within its own trace, a span that some observation carries as `parent`. */
  ghost predicate RecordedBeneath(obs: seq<Observation>, o: Observation, parent: Id) {
    ReferencesParent(o) && exists p :: p in obs && Carries(p, ParentRef(o), parent)
  }

  /** No span was reported under two identities. */
  ghost predicate Unambiguous(obs: seq<Observation>) {
    forall o, p | o in obs && p in obs && NamesSpan(o) && Carries(p, SpanRef(o.traceId, o.spanId), p.fingerprintId) ::
      o.fingerprintId == p.fingerprintId
  }

  ghost predicate OccurrenceExplained(obs: seq<Observation>, added: set<Id>, o: Observation) {
    exists parent :: parent in added && parent != o.fingerprintId && RecordedBeneath(obs, o, parent)
  }

  /** The rule in one sentence: the identity occurs, and every occurrence lies beneath a different added identity. */
  ghost predicate FoldedAway(obs: seq<Observation>, added: set<Id>, id: Id) {
    && (exists o :: o in obs && o.fingerprintId == id)
    && (forall o | o in obs && o.fingerprintId == id :: OccurrenceExplained(obs, added, o))
  }

  ghost predicate OccurrenceEdge(obs: seq<Observation>, added: set<Id>, parent: Id, child: Id) {
    && parent in added && child in added && parent != child
    && exists o :: o in obs && o.fingerprintId == child && RecordedBeneath(obs, o, parent)
  }

  ghost predicate ChainLink(obs: seq<Observation>, added: set<Id>, p: seq<Id>, i: nat)
    requires i + 1 < |p|
  {
    OccurrenceEdge(obs, added, p[i], p[i + 1])
  }

  ghost predicate Chain(obs: seq<Observation>, added: set<Id>, p: seq<Id>) {
    p != [] && forall i: nat | i + 1 < |p| :: ChainLink(obs, added, p, i)
  }

  ghost predicate OccurrenceCycle(obs: seq<Observation>, added: set<Id>) {
    exists p :: |p| >= 2 && Chain(obs, added, p) && p[0] == p[|p| - 1]
  }

  ghost predicate OccurrenceReaches(obs: seq<Observation>, added: set<Id>, a: Id, b: Id) {
    exists p :: Chain(obs, added, p) && p[0] == a && p[|p| - 1] == b
  }

  // ---- Parentage ----------------------------------------------------------------------------------------------

  /** Which identity each span carried, keeping the first one seen. */
  function FirstIdentities(obs: seq<Observation>): map<SpanRef, Id> {
    if obs == [] then map[]
    else
      var m := FirstIdentities(obs[..|obs| - 1]);
      var o := obs[|obs| - 1];
      var ref := SpanRef(o.traceId, o.spanId);
      if NamesSpan(o) && ref !in m then m[ref := o.fingerprintId] else m
  }

  predicate Independent(m: map<SpanRef, Id>, o: Observation) {
    !ReferencesParent(o) || ParentRef(o) !in m || m[ParentRef(o)] == o.fingerprintId
  }

  predicate Beneath(m: map<SpanRef, Id>, o: Observation, parent: Id) {
    ReferencesParent(o) && ParentRef(o) in m && m[ParentRef(o)] == parent && parent != o.fingerprintId
  }

  ghost predicate HasIndependent(m: map<SpanRef, Id>, obs: seq<Observation>, id: Id) {
    id != "" && exists o :: o in obs && o.fingerprintId == id && Independent(m, o)
  }

  ghost predicate HasBeneath(m: map<SpanRef, Id>, obs: seq<Observation>, id: Id, parent: Id) {
    id != "" && exists o :: o in obs && o.fingerprintId == id && Beneath(m, o, parent)
  }

  /** What the second pass records for the observations it has classified, given the spans' identities. */
  ghost predicate Classifies(m: map<SpanRef, Id>, obs: seq<Observation>, parents: map<Id, set<Id>>, independent: set<Id>) {
    && (forall id :: id in independent <==> HasIndependent(m, obs, id))
    && (forall id, parent :: id in parents && parent in parents[id] <==> HasBeneath(m, obs, id, parent))
    && (forall id | id in parents :: parents[id] != {})
  }

  ghost predicate IsParentage(obs: seq<Observation>, p: Parentage) {
    && Classifies(FirstIdentities(obs), obs, p.parents, p.independent)
    && (p.degraded <==> !Unambiguous(obs))
  }

  /** The span map holds every span named, each with an identity some observation carried for it. */
  lemma {:induction false} FirstIdentitiesSound(obs: seq<Observation>, ref: SpanRef)
    ensures ref in FirstIdentities(obs) ==>
              exists p :: p in obs && Carries(p, ref, FirstIdentities(obs)[ref])
    ensures (exists p, id :: p in obs && Carries(p, ref, id)) ==> ref in FirstIdentities(obs)
  {
    if obs != [] {
      var init, o := obs[..|obs| - 1], obs[|obs| - 1];
      assert obs == init + [o];
      FirstIdentitiesSound(init, ref);
      if ref in FirstIdentities(obs) && ref !in FirstIdentities(init) {
        assert o in obs && Carries(o, ref, o.fingerprintId);
      }
    }
  }

  lemma UnambiguousIdentity(obs: seq<Observation>, p: Observation, ref: SpanRef, id: Id)
    requires Unambiguous(obs) && p in obs && Carries(p, ref, id)
    ensures ref in FirstIdentities(obs) && FirstIdentities(obs)[ref] == id
  {
    FirstIdentitiesSound(obs, ref);
    assert exists q, i :: q in obs && Carries(q, ref, i);
    var q :| q in obs && Carries(q, ref, FirstIdentities(obs)[ref]);
    assert Carries(q, SpanRef(p.traceId, p.spanId), q.fingerprintId);
  }

  /** On an unambiguous history the summarised parent is the recorded one. */
  lemma BeneathIsRecorded(obs: seq<Observation>, o: Observation, parent: Id)
    requires Unambiguous(obs)
    ensures Beneath(FirstIdentities(obs), o, parent) <==> RecordedBeneath(obs, o, parent) && parent != o.fingerprintId
  {
    var m := FirstIdentities(obs);
    if Beneath(m, o, parent) {
      FirstIdentitiesSound(obs, ParentRef(o));
    }
    if RecordedBeneath(obs, o, parent) {
      var p :| p in obs && Carries(p, ParentRef(o), parent);
      UnambiguousIdentity(obs, p, ParentRef(o), parent);
    }
  }

  lemma UnambiguousExtends(init: seq<Observation>, o: Observation)
    requires Unambiguous(init)
    ensures Unambiguous(init + [o]) <==>
            (NamesSpan(o) && SpanRef(o.traceId, o.spanId) in FirstIdentities(init)
             ==> FirstIdentities(init)[SpanRef(o.traceId, o.spanId)] == o.fingerprintId)
  {
    var obs := init + [o];
    var ref := SpanRef(o.traceId, o.spanId);
    var m := FirstIdentities(init);
    if Unambiguous(obs) && NamesSpan(o) && ref in m {
      FirstIdentitiesSound(init, ref);
      var q :| q in init && Carries(q, ref, m[ref]);
      assert o in obs && q in obs && Carries(q, ref, q.fingerprintId);
    }
    if NamesSpan(o) && ref in m ==> m[ref] == o.fingerprintId {
      forall a, b | a in obs && b in obs && NamesSpan(a) && Carries(b, SpanRef(a.traceId, a.spanId), b.fingerprintId)
        ensures a.fingerprintId == b.fingerprintId
      {
        if a in init && b !in init {
          UnambiguousIdentity(init, a, ref, a.fingerprintId);
        } else if b in init && a !in init {
          UnambiguousIdentity(init, b, ref, b.fingerprintId);
        } else if a in init && b in init {
          assert Carries(b, SpanRef(a.traceId, a.spanId), b.fingerprintId);
        }
      }
    }
  }

  lemma AmbiguousStays(init: seq<Observation>, o: Observation)
    requires !Unambiguous(init)
    ensures !Unambiguous(init + [o])
  {
    var a, b :| a in init && b in init && NamesSpan(a)
                && Carries(b, SpanRef(a.traceId, a.spanId), b.fingerprintId) && a.fingerprintId != b.fingerprintId;
    assert a in init + [o] && b in init + [o];
  }

  /** The first pass: which identity each span carried, and whether any span was reported under two. */
  method LearnIdentities(obs: seq<Observation>) returns (identityOf: map<SpanRef, Id>, degraded: bool)
    ensures identityOf == FirstIdentities(obs)
    ensures degraded <==> !Unambiguous(obs)
  {
    identityOf := map[];
    degraded := false;
    for i := 0 to |obs|
      invariant identityOf == FirstIdentities(obs[..i])
      invariant degraded <==> !Unambiguous(obs[..i])
    {
      var o := obs[i];
      assert obs[..i + 1] == obs[..i] + [o];
      assert obs[..i + 1][..i] == obs[..i];
      if degraded { AmbiguousStays(obs[..i], o); } else { UnambiguousExtends(obs[..i], o); }
      if o.traceId == "" || o.spanId == "" || o.fingerprintId == "" {
        continue;
      }
      var ref := SpanRef(o.traceId, o.spanId);
      if ref !in identityOf {
        identityOf := identityOf[ref := o.fingerprintId];
        continue;
      }
      if identityOf[ref] != o.fingerprintId {
        degraded := true;
      }
    }
    assert obs[..|obs|] == obs;
  }

  /** The second pass: each occurrence is either beneath another identity or independent. */
  method ClassifyOccurrences(obs: seq<Observation>, identityOf: map<SpanRef, Id>)
    returns (parents: map<Id, set<Id>>, independent: set<Id>)
    ensures Classifies(identityOf, obs, parents, independent)
  {
    parents := map[];
    independent := {};
    for i := 0 to |obs|
      invariant Classifies(identityOf, obs[..i], parents, independent)
    {
      var o := obs[i];
      assert obs[..i + 1] == obs[..i] + [o];
      ClassifyOne(identityOf, obs[..i], parents, independent, o);
      if o.fingerprintId == "" {
        continue;
      }
      if o.parentSpanId == "" || o.traceId == "" {
        independent := independent + {o.fingerprintId};
        continue;
      }
      var ref := SpanRef(o.traceId, o.parentSpanId);
      if ref !in identityOf {
        independent := independent + {o.fingerprintId};
        continue;
      }
      var parentId := identityOf[ref];
      if parentId == o.fingerprintId {
        independent := independent + {o.fingerprintId};
        continue;
      }
      var into := if o.fingerprintId in parents then parents[o.fingerprintId] else {};
      parents := parents[o.fingerprintId := into + {parentId}];
    }
    assert obs[..|obs|] == obs;
  }

  /** Two passes, because a child may arrive before its parent and neither order may change the result. */
  method BuildBehaviorParentage(obs: seq<Observation>) returns (p: Parentage)
    ensures IsParentage(obs, p)
  {
    var identityOf, degraded := LearnIdentities(obs);
    var parents, independent := ClassifyOccurrences(obs, identityOf);
    p := Parentage(parents, independent, degraded);
  }

  lemma ClassifyOne(m: map<SpanRef, Id>, init: seq<Observation>, parents: map<Id, set<Id>>, independent: set<Id>, o: Observation)
    requires Classifies(m, init, parents, independent)
    ensures var id := o.fingerprintId;
            if id == "" then Classifies(m, init + [o], parents, independent)
            else if Independent(m, o) then Classifies(m, init + [o], parents, independent + {id})
            else Classifies(m, init + [o],
                            parents[id := (if id in parents then parents[id] else {}) + {m[ParentRef(o)]}], independent)
  {
    var obs := init + [o];
    forall id ensures HasIndependent(m, obs, id) <==> HasIndependent(m, init, id) || (id != "" && id == o.fingerprintId && Independent(m, o)) {
      if HasIndependent(m, init, id) {
        var q :| q in init && q.fingerprintId == id && Independent(m, q);
        assert q in obs;
      }
      assert o in obs;
    }
    forall id, parent
      ensures HasBeneath(m, obs, id, parent) <==> HasBeneath(m, init, id, parent) || (id != "" && id == o.fingerprintId && Beneath(m, o, parent))
    {
      if HasBeneath(m, init, id, parent) {
        var q :| q in init && q.fingerprintId == id && Beneath(m, q, parent);
        assert q in obs;
      }
      assert o in obs;
    }
  }

  // ---- The fold -----------------------------------------------------------------------------------------------

  predicate FoldEligible(p: Parentage, id: Id, inAdded: set<Id>) {
    id !in p.independent && ParentsOf(p, id) != {} && ParentsOf(p, id) <= inAdded
  }

  function KidSet(p: Parentage, inAdded: set<Id>, parent: Id): set<Id> {
    set c | c in inAdded && parent in ParentsOf(p, c)
  }

  /** The added subgraph: an edge wherever one added identity was observed beneath another. */
  ghost function AddedChildren(p: Parentage, inAdded: set<Id>): Children {
    map x | x in inAdded && KidSet(p, inAdded, x) != {} :: SortIds(KidSet(p, inAdded, x))
  }

  ghost function ReachSet(children: Children, nodes: set<Id>, root: Id): set<Id> {
    set x | x in nodes && Reaches(children, root, x)
  }

  function Unfolded(added: seq<Id>): seq<BehaviorChange> {
    seq(|added|, i requires 0 <= i < |added| => BehaviorChange(added[i], [added[i]]))
  }

  /** One change per listed identity that is not eligible to fold. */
  ghost function RootChanges(p: Parentage, inAdded: set<Id>, ids: seq<Id>): seq<BehaviorChange> {
    if ids == [] then []
    else
      var rest := RootChanges(p, inAdded, ids[..|ids| - 1]);
      var id := ids[|ids| - 1];
      if FoldEligible(p, id, inAdded) then rest
      else rest + [BehaviorChange(id, SortIds(ReachSet(AddedChildren(p, inAdded), inAdded, id)))]
  }

  ghost function Fold(added: seq<Id>, p: Parentage, state: CorrelationState): (seq<BehaviorChange>, CorrelationState) {
    if state != CorrelationComplete || p.degraded then
      (Unfolded(added), if p.degraded && state == CorrelationComplete then CorrelationPartial else state)
    else if Cyclic(AddedChildren(p, Elems(added))) then
      (Unfolded(added), CorrelationPartial)
    else
      (RootChanges(p, Elems(added), added), state)
  }

  lemma AddedChildrenKids(p: Parentage, inAdded: set<Id>, x: Id)
    requires x in inAdded
    ensures Elems(Kids(AddedChildren(p, inAdded), x)) == KidSet(p, inAdded, x)
    ensures Distinct(Kids(AddedChildren(p, inAdded), x))
  {
    AscendingDistinct(SortIds(KidSet(p, inAdded, x)));
    NoElems<Id>([]);
  }

  lemma AddedChildrenWellFormed(p: Parentage, inAdded: set<Id>)
    ensures WellFormed(inAdded, AddedChildren(p, inAdded))
  {
    forall x | x in inAdded
      ensures Distinct(Kids(AddedChildren(p, inAdded), x)) && Elems(Kids(AddedChildren(p, inAdded), x)) <= inAdded
    {
      AddedChildrenKids(p, inAdded, x);
    }
  }

  lemma AddedEdge(p: Parentage, inAdded: set<Id>, x: Id, y: Id)
    ensures y in Kids(AddedChildren(p, inAdded), x) <==> x in inAdded && y in inAdded && x in ParentsOf(p, y)
  {
    if x in inAdded {
      AddedChildrenKids(p, inAdded, x);
      assert y in Kids(AddedChildren(p, inAdded), x) <==> y in Elems(Kids(AddedChildren(p, inAdded), x));
    }
  }

  function ChildrenSeen(p: Parentage, seen: set<Id>, parent: Id): set<Id> {
    set c | c in seen && parent in ParentsOf(p, c)
  }

  /** One parent's list under construction: the children seen so far, ascending, and no entry for an empty list. */
  ghost predicate EdgeList(p: Parentage, seen: set<Id>, children: Children, x: Id) {
    && (x in children ==> children[x] != [])
    && Ascending(Kids(children, x)) && Elems(Kids(children, x)) == ChildrenSeen(p, seen, x)
  }

  ghost predicate EdgesSoFar(p: Parentage, inAdded: set<Id>, seen: set<Id>, children: Children) {
    children.Keys <= inAdded && forall x {:trigger EdgeList(p, seen, children, x)} | x in inAdded :: EdgeList(p, seen, children, x)
  }

  lemma EdgeListDone(p: Parentage, inAdded: set<Id>, children: Children, x: Id)
    requires x in inAdded && EdgeList(p, inAdded, children, x)
    ensures x in children <==> x in AddedChildren(p, inAdded)
    ensures x in children ==> children[x] == AddedChildren(p, inAdded)[x]
  {
    assert ChildrenSeen(p, inAdded, x) == KidSet(p, inAdded, x);
    NoElems(Kids(children, x));
    SortIdsUnique(Kids(children, x));
  }

  lemma SameEntries(a: Children, b: Children, keys: set<Id>)
    requires a.Keys <= keys && b.Keys <= keys
    requires forall x | x in keys :: (x in a <==> x in b) && (x in a ==> a[x] == b[x])
    ensures a == b
  {
    assert a.Keys == b.Keys;
  }

  lemma EdgesDone(p: Parentage, inAdded: set<Id>, children: Children)
    requires EdgesSoFar(p, inAdded, inAdded, children)
    ensures children == AddedChildren(p, inAdded)
  {
    forall x | x in inAdded
      ensures (x in children <==> x in AddedChildren(p, inAdded))
              && (x in children ==> children[x] == AddedChildren(p, inAdded)[x])
    {
      assert EdgeList(p, inAdded, children, x);
      EdgeListDone(p, inAdded, children, x);
    }
    SameEntries(children, AddedChildren(p, inAdded), inAdded);
  }

  method BuildAddedChildren(added: seq<Id>, p: Parentage) returns (children: Children)
    requires Ascending(added)
    ensures children == AddedChildren(p, Elems(added))
  {
    var inAdded := Elems(added);
    children := map[];
    NoElems<Id>([]);
    assert forall x | x in inAdded :: EdgeList(p, {}, children, x);
    for i := 0 to |added|
      invariant EdgesSoFar(p, inAdded, Elems(added[..i]), children)
    {
      ghost var before := children;
      forall x | x in children ensures children[x] != [] {
        assert EdgeList(p, Elems(added[..i]), children, x);
      }
      children := AddEdgesTo(added[i], p, inAdded, children);
      assert Elems(added[..i + 1]) == Elems(added[..i]) + {added[i]};
      forall x | x in inAdded ensures EdgeList(p, Elems(added[..i + 1]), children, x) {
        assert EdgeList(p, Elems(added[..i]), before, x);
        EdgeListGrows(p, Elems(added[..i]), before, children, x, added[i]);
      }
    }
    assert added[..|added|] == added;
    EdgesDone(p, inAdded, children);
  }

  lemma EdgeListGrows(p: Parentage, seen: set<Id>, before: Children, after: Children, x: Id, child: Id)
    requires EdgeList(p, seen, before, x) && forall c | c in seen :: Less(c, child)
    requires AppendedIf(Kids(before, x), Kids(after, x), child, x in ParentsOf(p, child))
    requires x in after ==> after[x] != []
    ensures EdgeList(p, seen + {child}, after, x)
  {
    if x in ParentsOf(p, child) {
      AppendAscending(Kids(before, x), child, seen);
      assert ChildrenSeen(p, seen + {child}, x) == ChildrenSeen(p, seen, x) + {child};
    } else {
      assert ChildrenSeen(p, seen + {child}, x) == ChildrenSeen(p, seen, x);
    }
  }

  /** Appends one added identity under each of its added parents, in whatever order the parents come. */
  method AddEdgesTo(child: Id, p: Parentage, inAdded: set<Id>, children0: Children) returns (children: Children)
    requires children0.Keys <= inAdded && forall x | x in children0 :: children0[x] != []
    ensures children.Keys <= inAdded && forall x | x in children :: children[x] != []
    ensures forall x | x in inAdded :: AppendedIf(Kids(children0, x), Kids(children, x), child, x in ParentsOf(p, child))
  {
    children := children0;
    var todo := ParentsOf(p, child);
    while todo != {}
      invariant todo <= ParentsOf(p, child)
      invariant children.Keys <= inAdded && forall x | x in children :: children[x] != []
      invariant forall x | x in inAdded ::
                  AppendedIf(Kids(children0, x), Kids(children, x), child, x in ParentsOf(p, child) && x !in todo)
      decreases |todo|
    {
      var parent :| parent in todo;
      if parent in inAdded {
        children := children[parent := Kids(children, parent) + [child]];
      }
      todo := todo - {parent};
    }
  }

  ghost predicate AppendedIf(before: seq<Id>, after: seq<Id>, x: Id, b: bool) {
    after == if b then before + [x] else before
  }

  lemma AppendAscending(s: seq<Id>, x: Id, bound: set<Id>)
    requires Ascending(s) && Elems(s) <= bound && forall c | c in bound :: Less(c, x)
    ensures Ascending(s + [x]) && Elems(s + [x]) == Elems(s) + {x}
  {
    forall i, j | 0 <= i < j < |s + [x]| ensures Less((s + [x])[i], (s + [x])[j]) {
      if j == |s| { assert s[i] in Elems(s); }
    }
  }

  /** Applies the rule to an added set, sorted as a comparison lists it. */
  method FoldAddedChanges(added: seq<Id>, p: Parentage, state: CorrelationState)
    returns (changes: seq<BehaviorChange>, result: CorrelationState)
    requires Ascending(added)
    ensures (changes, result) == Fold(added, p, state)
  {
    if state != CorrelationComplete || p.degraded {
      result := if p.degraded && state == CorrelationComplete then CorrelationPartial else state;
      return Unfolded(added), result;
    }
    var inAdded := Elems(added);
    var children := BuildAddedChildren(added, p);
    AddedChildrenWellFormed(p, inAdded);
    AscendingDistinct(added);
    var cyclic := HasCycle(added, children);
    if cyclic {
      return Unfolded(added), CorrelationPartial;
    }
    changes := [];
    for i := 0 to |added|
      invariant changes == RootChanges(p, inAdded, added[..i])
    {
      assert added[..i + 1][..i] == added[..i];
      assert added[i] in inAdded;
      if FoldEligible(p, added[i], inAdded) {
        continue;
      }
      var contributors := ReachableFrom(added[i], children, inAdded);
      ReachListed(children, inAdded, added[i], contributors);
      changes := changes + [BehaviorChange(added[i], contributors)];
    }
    assert added[..|added|] == added;
    result := state;
  }

  lemma ReachListed(children: Children, nodes: set<Id>, root: Id, out: seq<Id>)
    requires WellFormed(nodes, children) && root in nodes && Ascending(out)
    requires forall x :: x in out <==> Reaches(children, root, x)
    ensures out == SortIds(ReachSet(children, nodes, root))
  {
    forall x | Reaches(children, root, x) ensures x in nodes {
      forall a, b | a in nodes && b in Kids(children, a) ensures b in nodes {
        assert b in Elems(Kids(children, a));
      }
      ClosedCoversReach(children, nodes, root, x);
    }
    assert Elems(out) == ReachSet(children, nodes, root);
    SortIdsUnique(out);
  }

  // ---- What the fold promises ---------------------------------------------------------------------------------

  ghost predicate IsRootOf(changes: seq<BehaviorChange>, id: Id) {
    exists k :: 0 <= k < |changes| && changes[k].root == id
  }

  lemma {:induction false} RootChangesShape(p: Parentage, inAdded: set<Id>, ids: seq<Id>)
    requires Elems(ids) <= inAdded
    ensures |RootChanges(p, inAdded, ids)| <= |ids|
    ensures forall k | 0 <= k < |RootChanges(p, inAdded, ids)| ::
              var c := RootChanges(p, inAdded, ids)[k];
              c.root in ids && !FoldEligible(p, c.root, inAdded)
              && c.contributors == SortIds(ReachSet(AddedChildren(p, inAdded), inAdded, c.root))
    ensures forall id | id in ids && !FoldEligible(p, id, inAdded) :: IsRootOf(RootChanges(p, inAdded, ids), id)
  {
    if ids != [] {
      var init, last := ids[..|ids| - 1], ids[|ids| - 1];
      assert ids == init + [last];
      RootChangesShape(p, inAdded, init);
      var before, after := RootChanges(p, inAdded, init), RootChanges(p, inAdded, ids);
      forall id | id in ids && !FoldEligible(p, id, inAdded) ensures IsRootOf(after, id) {
        if id in init {
          assert IsRootOf(before, id);
          var k :| 0 <= k < |before| && before[k].root == id;
          assert after[k].root == id;
        } else {
          assert after[|after| - 1].root == id;
        }
      }
    }
  }

  /** Roots come out in ascending order: the source's final sort has nothing left to move. */
  lemma {:induction false} RootChangesSorted(p: Parentage, inAdded: set<Id>, ids: seq<Id>)
    requires Ascending(ids) && Elems(ids) <= inAdded
    ensures forall i, j | 0 <= i < j < |RootChanges(p, inAdded, ids)| ::
              Less(RootChanges(p, inAdded, ids)[i].root, RootChanges(p, inAdded, ids)[j].root)
  {
    if ids != [] {
      var init, last := ids[..|ids| - 1], ids[|ids| - 1];
      assert ids == init + [last];
      RootChangesSorted(p, inAdded, init);
      RootChangesShape(p, inAdded, init);
      assert forall x | x in init :: Less(x, last);
    }
  }

  /** In an acyclic subgraph every non-empty set of identities closed under added parents is impossible, so each added
      identity lies beneath some root. */
  lemma EveryIdentityCovered(p: Parentage, inAdded: set<Id>, x: Id) returns (root: Id)
    requires x in inAdded && !Cyclic(AddedChildren(p, inAdded))
    ensures root in inAdded && !FoldEligible(p, root, inAdded) && Reaches(AddedChildren(p, inAdded), root, x)
  {
    var children := AddedChildren(p, inAdded);
    var uncovered := set y | y in inAdded && !CoveredByRoot(p, inAdded, y);
    if x in uncovered {
      forall y {:trigger HasParentIn(children, uncovered, y)} | y in uncovered ensures HasParentIn(children, uncovered, y) {
        UncoveredHasParent(p, inAdded, uncovered, y);
      }
      ParentClosedSetIsCyclic(children, uncovered);
    }
    assert CoveredByRoot(p, inAdded, x);
    root :| root in inAdded && !FoldEligible(p, root, inAdded) && Reaches(children, root, x);
  }

  ghost predicate CoveredByRoot(p: Parentage, inAdded: set<Id>, y: Id) {
    exists root :: root in inAdded && !FoldEligible(p, root, inAdded) && Reaches(AddedChildren(p, inAdded), root, y)
  }

  lemma UncoveredHasParent(p: Parentage, inAdded: set<Id>, uncovered: set<Id>, y: Id)
    requires uncovered == set z | z in inAdded && !CoveredByRoot(p, inAdded, z)
    requires y in uncovered
    ensures HasParentIn(AddedChildren(p, inAdded), uncovered, y)
  {
    var children := AddedChildren(p, inAdded);
    ReachesSelf(children, y);
    assert FoldEligible(p, y, inAdded);
    var z :| z in ParentsOf(p, y);
    AddedEdge(p, inAdded, z, y);
    if CoveredByRoot(p, inAdded, z) {
      var root :| root in inAdded && !FoldEligible(p, root, inAdded) && Reaches(children, root, z);
      ReachesStep(children, root, z, y);
    }
    assert z in uncovered;
  }

  ghost predicate Contributes(changes: seq<BehaviorChange>, id: Id) {
    exists k :: 0 <= k < |changes| && id in changes[k].contributors
  }

  /** For every added set, parentage and state: at most one change per identity, at least one when there are any, all
      identities covered, and an unfolded list whenever the state is not complete. */
  lemma FoldCoversAndOnlyLowers(added: seq<Id>, p: Parentage, state: CorrelationState)
    requires Ascending(added)
    ensures var (changes, result) := Fold(added, p, state);
            && |changes| <= |added| && (added != [] ==> |changes| >= 1)
            && (forall id | id in added :: Contributes(changes, id))
            && (result != CorrelationComplete ==> changes == Unfolded(added))
            && (result != CorrelationComplete ==>
                  |changes| == |added| && forall k | 0 <= k < |added| :: changes[k].root == added[k] && changes[k].contributors == [added[k]])
            && (forall i, j | 0 <= i < j < |changes| :: Less(changes[i].root, changes[j].root))
  {
    var (changes, result) := Fold(added, p, state);
    var inAdded := Elems(added);
    if changes == Unfolded(added) {
      forall id | id in added ensures Contributes(changes, id) {
        var k :| 0 <= k < |added| && added[k] == id;
        assert id in changes[k].contributors;
      }
    } else {
      RootChangesShape(p, inAdded, added);
      RootChangesSorted(p, inAdded, added);
      forall id | id in added ensures Contributes(changes, id) {
        var root := EveryIdentityCovered(p, inAdded, id);
        assert IsRootOf(changes, root);
        var k :| 0 <= k < |changes| && changes[k].root == root;
        assert id in Elems(changes[k].contributors);
      }
      if added != [] {
        assert added[0] in added;
        assert Contributes(changes, added[0]);
      }
    }
  }

  // ---- Refinement of the occurrence-level rule ----------------------------------------------------------------

  lemma SummarisedEdge(obs: seq<Observation>, p: Parentage, inAdded: set<Id>, x: Id, y: Id)
    requires IsParentage(obs, p) && Unambiguous(obs) && "" !in inAdded
    ensures y in Kids(AddedChildren(p, inAdded), x) <==> OccurrenceEdge(obs, inAdded, x, y)
  {
    var m := FirstIdentities(obs);
    AddedEdge(p, inAdded, x, y);
    assert x in ParentsOf(p, y) <==> HasBeneath(m, obs, y, x);
    if HasBeneath(m, obs, y, x) {
      var o :| o in obs && o.fingerprintId == y && Beneath(m, o, x);
      BeneathIsRecorded(obs, o, x);
    }
    if OccurrenceEdge(obs, inAdded, x, y) {
      var o :| o in obs && o.fingerprintId == y && RecordedBeneath(obs, o, x);
      BeneathIsRecorded(obs, o, x);
    }
  }

  lemma ChainIsPath(obs: seq<Observation>, p: Parentage, inAdded: set<Id>, path: seq<Id>)
    requires IsParentage(obs, p) && Unambiguous(obs) && "" !in inAdded
    ensures Chain(obs, inAdded, path) <==> IsPath(AddedChildren(p, inAdded), path)
  {
    var children := AddedChildren(p, inAdded);
    forall i: nat | i + 1 < |path| ensures Link(children, path, i) <==> ChainLink(obs, inAdded, path, i) {
      SummarisedEdge(obs, p, inAdded, path[i], path[i + 1]);
    }
    if Chain(obs, inAdded, path) {
      forall i: nat | i + 1 < |path| ensures Link(children, path, i) {
        assert ChainLink(obs, inAdded, path, i);
      }
    }
    if IsPath(children, path) {
      forall i: nat | i + 1 < |path| ensures ChainLink(obs, inAdded, path, i) {
        assert Link(children, path, i);
      }
    }
  }

  lemma ChainsAgree(obs: seq<Observation>, p: Parentage, inAdded: set<Id>)
    requires IsParentage(obs, p) && Unambiguous(obs) && "" !in inAdded
    ensures Cyclic(AddedChildren(p, inAdded)) <==> OccurrenceCycle(obs, inAdded)
    ensures forall a, b :: Reaches(AddedChildren(p, inAdded), a, b) <==> OccurrenceReaches(obs, inAdded, a, b)
  {
    var children := AddedChildren(p, inAdded);
    if Cyclic(children) {
      var q :| IsCycle(children, q);
      ChainIsPath(obs, p, inAdded, q);
    }
    if OccurrenceCycle(obs, inAdded) {
      var q :| |q| >= 2 && Chain(obs, inAdded, q) && q[0] == q[|q| - 1];
      ChainIsPath(obs, p, inAdded, q);
      assert IsCycle(children, q);
    }
    forall a, b ensures Reaches(children, a, b) <==> OccurrenceReaches(obs, inAdded, a, b) {
      if Reaches(children, a, b) {
        var q :| PathFromTo(children, a, b, q);
        ChainIsPath(obs, p, inAdded, q);
      }
      if OccurrenceReaches(obs, inAdded, a, b) {
        var q :| Chain(obs, inAdded, q) && q[0] == a && q[|q| - 1] == b;
        ChainIsPath(obs, p, inAdded, q);
        assert PathFromTo(children, a, b, q);
      }
    }
  }

  /** The summary kept per identity loses nothing the rule needs. */
  lemma EligibleIsFoldedAway(obs: seq<Observation>, p: Parentage, inAdded: set<Id>, id: Id)
    requires IsParentage(obs, p) && Unambiguous(obs) && id != ""
    ensures FoldEligible(p, id, inAdded) <==> FoldedAway(obs, inAdded, id)
  {
    var m := FirstIdentities(obs);
    if FoldEligible(p, id, inAdded) {
      forall o | o in obs && o.fingerprintId == id ensures OccurrenceExplained(obs, inAdded, o) {
        assert !HasIndependent(m, obs, id);
        assert !Independent(m, o);
        var parent := m[ParentRef(o)];
        assert HasBeneath(m, obs, id, parent);
        assert parent in ParentsOf(p, id);
        BeneathIsRecorded(obs, o, parent);
      }
      var parent :| parent in ParentsOf(p, id);
      assert HasBeneath(m, obs, id, parent);
    }
    if FoldedAway(obs, inAdded, id) {
      forall o | o in obs && o.fingerprintId == id ensures !Independent(m, o) && m[ParentRef(o)] in inAdded {
        assert OccurrenceExplained(obs, inAdded, o);
        var parent :| parent in inAdded && parent != o.fingerprintId && RecordedBeneath(obs, o, parent);
        BeneathIsRecorded(obs, o, parent);
      }
      assert id !in p.independent;
      var o :| o in obs && o.fingerprintId == id;
      assert Beneath(m, o, m[ParentRef(o)]);
      assert HasBeneath(m, obs, id, m[ParentRef(o)]);
      assert m[ParentRef(o)] in ParentsOf(p, id);
      forall parent | parent in ParentsOf(p, id) ensures parent in inAdded {
        assert HasBeneath(m, obs, id, parent);
        var q :| q in obs && q.fingerprintId == id && Beneath(m, q, parent);
      }
    }
  }

  /** Over a complete history the fold succeeds exactly when no span is ambiguous and no recorded parent chain among
      the added identities is cyclic; it then counts exactly the identities the rule does not fold away, and each
      change covers exactly the added identities recorded beneath its root. */
  lemma FoldRefinesOccurrenceRule(added: seq<Id>, obs: seq<Observation>, p: Parentage)
    requires Ascending(added) && "" !in added && IsParentage(obs, p)
    ensures var (changes, result) := Fold(added, p, CorrelationComplete);
            && (result == CorrelationComplete <==> Unambiguous(obs) && !OccurrenceCycle(obs, Elems(added)))
            && (result == CorrelationComplete ==>
                && (forall id | id in added :: IsRootOf(changes, id) <==> !FoldedAway(obs, Elems(added), id))
                && (forall k | 0 <= k < |changes| ::
                      && changes[k].root in added && Ascending(changes[k].contributors)
                      && forall x :: x in changes[k].contributors <==>
                                       x in added && OccurrenceReaches(obs, Elems(added), changes[k].root, x)))
  {
    var (changes, result) := Fold(added, p, CorrelationComplete);
    var inAdded := Elems(added);
    if Unambiguous(obs) {
      ChainsAgree(obs, p, inAdded);
      if result == CorrelationComplete {
        RootChangesShape(p, inAdded, added);
        forall id | id in added ensures IsRootOf(changes, id) <==> !FoldedAway(obs, inAdded, id) {
          EligibleIsFoldedAway(obs, p, inAdded, id);
        }
        forall k | 0 <= k < |changes|
          ensures Ascending(changes[k].contributors)
          ensures forall x :: x in changes[k].contributors <==> x in added && OccurrenceReaches(obs, inAdded, changes[k].root, x)
        {
          var c := changes[k];
          assert Elems(c.contributors) == ReachSet(AddedChildren(p, inAdded), inAdded, c.root);
          forall x ensures x in c.contributors <==> x in added && OccurrenceReaches(obs, inAdded, c.root, x) {
            assert x in c.contributors <==> x in Elems(c.contributors);
          }
        }
      }
    }
  }

  // ---- Order independence -------------------------------------------------------------------------------------

  lemma SameObservationsSameIdentities(a: seq<Observation>, b: seq<Observation>)
    requires Elems(a) == Elems(b) && Unambiguous(a)
    ensures FirstIdentities(a) == FirstIdentities(b)
  {
    forall o ensures o in a <==> o in b {
      assert o in a <==> o in Elems(a);
      assert o in b <==> o in Elems(b);
    }
    assert Unambiguous(b);
    forall ref ensures ref in FirstIdentities(a) <==> ref in FirstIdentities(b)
               ensures ref in FirstIdentities(a) ==> FirstIdentities(a)[ref] == FirstIdentities(b)[ref]
    {
      FirstIdentitiesSound(a, ref);
      FirstIdentitiesSound(b, ref);
      if ref in FirstIdentities(a) {
        var p :| p in a && Carries(p, ref, FirstIdentities(a)[ref]);
        UnambiguousIdentity(b, p, ref, FirstIdentities(a)[ref]);
      }
    }
  }

  lemma ClassificationUnique(m: map<SpanRef, Id>, a: seq<Observation>, b: seq<Observation>, p: Parentage, q: Parentage)
    requires Elems(a) == Elems(b)
    requires Classifies(m, a, p.parents, p.independent) && Classifies(m, b, q.parents, q.independent)
    ensures p.parents == q.parents && p.independent == q.independent
  {
    forall o ensures o in a <==> o in b {
      assert o in a <==> o in Elems(a);
      assert o in b <==> o in Elems(b);
    }
    forall id ensures HasIndependent(m, a, id) <==> HasIndependent(m, b, id) {}
    assert p.independent == q.independent;
    forall id, parent ensures HasBeneath(m, a, id, parent) <==> HasBeneath(m, b, id, parent) {}
    forall id
      ensures ParentsOf(p, id) == ParentsOf(q, id)
    {
      forall parent ensures parent in ParentsOf(p, id) <==> parent in ParentsOf(q, id) {
        assert parent in ParentsOf(p, id) <==> HasBeneath(m, a, id, parent);
        assert parent in ParentsOf(q, id) <==> HasBeneath(m, b, id, parent);
      }
    }
    forall id ensures id in p.parents <==> id in q.parents {
      assert id in p.parents <==> ParentsOf(p, id) != {};
      assert id in q.parents <==> ParentsOf(q, id) != {};
    }
    assert p.parents.Keys == q.parents.Keys;
    forall id | id in p.parents ensures p.parents[id] == q.parents[id] {
      assert ParentsOf(p, id) == ParentsOf(q, id);
    }
  }

  /** Any two histories holding the same observations, in any order and with any repetition, fold alike. */
  lemma FoldIgnoresArrivalOrder(added: seq<Id>, a: seq<Observation>, b: seq<Observation>, p: Parentage, q: Parentage, state: CorrelationState)
    requires Elems(a) == Elems(b) && IsParentage(a, p) && IsParentage(b, q)
    ensures Fold(added, p, state) == Fold(added, q, state)
  {
    forall o ensures o in a <==> o in b {
      assert o in a <==> o in Elems(a);
      assert o in b <==> o in Elems(b);
    }
    assert Unambiguous(a) <==> Unambiguous(b);
    if Unambiguous(a) {
      SameObservationsSameIdentities(a, b);
      ClassificationUnique(FirstIdentities(a), a, b, p, q);
      assert p == q;
    }
  }

  lemma PermutedHistoriesFoldAlike(added: seq<Id>, a: seq<Observation>, b: seq<Observation>, p: Parentage, q: Parentage, state: CorrelationState)
    requires multiset(a) == multiset(b) && IsParentage(a, p) && IsParentage(b, q)
    ensures Fold(added, p, state) == Fold(added, q, state)
  {
    forall o ensures o in Elems(a) <==> o in Elems(b) {
      assert o in multiset(a) <==> o in a;
      assert o in multiset(b) <==> o in b;
    }
    FoldIgnoresArrivalOrder(added, a, b, p, q, state);
  }
}
