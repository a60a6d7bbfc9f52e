/** The directed-graph part of platform/counting.go: Kahn's cycle test and reachability over the added subgraph. */
module Graph {
  import opened Ordering

  type Children = map<Id, seq<Id>>

  function Kids(children: Children, id: Id): seq<Id> {
    if id in children then children[id] else []
  }

  /** Every edge joins two nodes, and no child is listed twice. */
  ghost predicate WellFormed(nodes: set<Id>, children: Children) {
    && children.Keys <= nodes
    && (forall p | p in nodes :: Distinct(Kids(children, p)) && Elems(Kids(children, p)) <= nodes)
  }

  ghost predicate Link(children: Children, p: seq<Id>, i: nat)
    requires i + 1 < |p|
  {
    p[i + 1] in Kids(children, p[i])
  }

  ghost predicate IsPath(children: Children, p: seq<Id>) {
    p != [] && forall i: nat | i + 1 < |p| :: Link(children, p, i)
  }

  ghost predicate IsCycle(children: Children, p: seq<Id>) {
    |p| >= 2 && IsPath(children, p) && p[0] == p[|p| - 1]
  }

  ghost predicate Cyclic(children: Children) {
    exists p :: IsCycle(children, p)
  }

  ghost predicate PathFromTo(children: Children, a: Id, b: Id, p: seq<Id>) {
    IsPath(children, p) && p[0] == a && p[|p| - 1] == b
  }

  ghost predicate Reaches(children: Children, a: Id, b: Id) {
    exists p :: PathFromTo(children, a, b, p)
  }

  lemma ReachesSelf(children: Children, a: Id)
    ensures Reaches(children, a, a)
  {
    assert PathFromTo(children, a, a, [a]);
  }

  lemma ReachesStep(children: Children, a: Id, b: Id, c: Id)
    requires Reaches(children, a, b) && c in Kids(children, b)
    ensures Reaches(children, a, c)
  {
    var p :| PathFromTo(children, a, b, p);
    var q := p + [c];
    forall i: nat | i + 1 < |q| ensures Link(children, q, i) {
      assert i + 1 < |p| ==> Link(children, p, i);
    }
    assert PathFromTo(children, a, c, q);
  }

  /** A set that holds a and every child of its members holds everything a reaches. */
  lemma ClosedCoversReach(children: Children, closed: set<Id>, a: Id, b: Id)
    requires a in closed && Reaches(children, a, b)
    requires forall x, y | x in closed && y in Kids(children, x) :: y in closed
    ensures b in closed
  {
    var p :| PathFromTo(children, a, b, p);
    ClosedCoversPath(children, closed, p, |p| - 1);
  }

  lemma {:induction false} ClosedCoversPath(children: Children, closed: set<Id>, p: seq<Id>, k: nat)
    requires IsPath(children, p) && p[0] in closed && k < |p|
    requires forall x, y | x in closed && y in Kids(children, x) :: y in closed
    ensures p[k] in closed
  {
    if k > 0 {
      ClosedCoversPath(children, closed, p, k - 1);
      assert Link(children, p, k - 1);
    }
  }

  // ---- Cycles -------------------------------------------------------------------------------------------------

  ghost predicate HasParentIn(children: Children, s: set<Id>, x: Id) {
    exists y :: y in s && x in Kids(children, y)
  }

  lemma BoundedByDistinct(p: seq<Id>, s: set<Id>)
    requires Distinct(p) && Elems(p) <= s
    ensures |p| <= |s|
  {
    DistinctSize(p);
    SubsetSize(Elems(p), s);
  }

  lemma {:induction false} SubsetSize(a: set<Id>, b: set<Id>)
    requires a <= b
    ensures |a| <= |b|
  {
    if a != {} {
      var x :| x in a;
      SubsetSize(a - {x}, b - {x});
    }
  }

  lemma PrependPath(children: Children, y: Id, p: seq<Id>)
    requires IsPath(children, p) && p[0] in Kids(children, y)
    ensures IsPath(children, [y] + p)
  {
    var q := [y] + p;
    forall i: nat | i + 1 < |q| ensures Link(children, q, i) {
      assert i > 0 ==> Link(children, p, i - 1);
    }
  }

  lemma PrefixPath(children: Children, p: seq<Id>, n: nat)
    requires IsPath(children, p) && 0 < n <= |p|
    ensures IsPath(children, p[..n])
  {
    forall i: nat | i + 1 < n ensures Link(children, p[..n], i) {
      assert Link(children, p, i);
    }
  }

  /** Walking to a parent inside a finite set that always has one must revisit a node. */
  lemma {:induction false} BackwardWalkFindsCycle(children: Children, s: set<Id>, p: seq<Id>)
    requires forall x {:trigger HasParentIn(children, s, x)} | x in s :: HasParentIn(children, s, x)
    requires IsPath(children, p) && Distinct(p) && Elems(p) <= s
    ensures Cyclic(children)
    decreases |s| - |p|
  {
    var x := p[0];
    assert x in Elems(p);
    assert HasParentIn(children, s, x);
    var y :| y in s && x in Kids(children, y);
    PrependPath(children, y, p);
    var q := [y] + p;
    if y in p {
      var k :| 0 <= k < |p| && p[k] == y;
      PrefixPath(children, q, k + 2);
      assert IsCycle(children, q[..k + 2]);
    } else {
      assert Elems(q) == {y} + Elems(p);
      assert Distinct(q);
      BoundedByDistinct(q, s);
      BackwardWalkFindsCycle(children, s, q);
    }
  }

  lemma ParentClosedSetIsCyclic(children: Children, s: set<Id>)
    requires s != {} && forall x {:trigger HasParentIn(children, s, x)} | x in s :: HasParentIn(children, s, x)
    ensures Cyclic(children)
  {
    var x :| x in s;
    assert IsPath(children, [x]) && Distinct([x]) && Elems([x]) == {x};
    BackwardWalkFindsCycle(children, s, [x]);
  }

  /** Each listed node's parents are all listed before it. */
  ghost predicate Topological(children: Children, nodes: set<Id>, order: seq<Id>) {
    forall i, p | 0 <= i < |order| && p in nodes && order[i] in Kids(children, p) :: p in order[..i]
  }

  ghost function Position(order: seq<Id>, x: Id): (i: nat)
    requires x in order
    ensures i < |order| && order[i] == x && x !in order[..i]
  {
    if order[0] == x then 0
    else
      assert order == [order[0]] + order[1..];
      var i := Position(order[1..], x);
      assert order[..i + 1] == [order[0]] + order[1..][..i];
      i + 1
  }

  lemma {:induction false} PositionIsFirst(order: seq<Id>, x: Id, j: nat)
    requires j < |order| && order[j] == x
    ensures Position(order, x) <= j
  {
    if order[0] != x {
      assert order == [order[0]] + order[1..];
      PositionIsFirst(order[1..], x, j - 1);
    }
  }

  lemma {:induction false} PathClimbsOrder(children: Children, nodes: set<Id>, order: seq<Id>, p: seq<Id>, k: nat)
    requires Topological(children, nodes, order) && Elems(order) == nodes && Distinct(order)
    requires WellFormed(nodes, children) && IsPath(children, p) && 1 <= k < |p|
    ensures p[0] in order && p[k] in order && Position(order, p[0]) < Position(order, p[k])
  {
    var a, b := p[k - 1], p[k];
    assert Link(children, p, k - 1);
    assert a in nodes && b in Elems(Kids(children, a));
    assert a in Elems(order) && b in Elems(order);
    assert a in order[..Position(order, b)];
    var j :| 0 <= j < Position(order, b) && order[j] == a;
    assert Position(order, a) <= j by {
      PositionIsFirst(order, a, j);
    }
    if k > 1 {
      PathClimbsOrder(children, nodes, order, p, k - 1);
    }
  }

  lemma TopologicalIsAcyclic(children: Children, nodes: set<Id>, order: seq<Id>)
    requires Topological(children, nodes, order) && Elems(order) == nodes && Distinct(order)
    requires WellFormed(nodes, children)
    ensures !Cyclic(children)
  {
    if Cyclic(children) {
      var p :| IsCycle(children, p);
      PathClimbsOrder(children, nodes, order, p, |p| - 1);
      assert false;
    }
  }

  // ---- Kahn's algorithm ---------------------------------------------------------------------------------------

  ghost function ParentsIn(children: Children, s: set<Id>, x: Id): set<Id> {
    set p | p in s && x in Kids(children, p)
  }

  /** The in-degree map counts each node's parents. */
  method CountParents(nodes: seq<Id>, children: Children) returns (inDegree: map<Id, int>)
    requires Distinct(nodes) && WellFormed(Elems(nodes), children)
    ensures inDegree.Keys == Elems(nodes)
    ensures forall x | x in Elems(nodes) :: inDegree[x] == |ParentsIn(children, Elems(nodes), x)|
  {
    inDegree := map[];
    for i := 0 to |nodes|
      invariant inDegree.Keys == Elems(nodes[..i])
      invariant forall x | x in inDegree :: inDegree[x] == 0
    {
      inDegree := inDegree[nodes[i] := 0];
    }
    assert nodes[..|nodes|] == nodes;
    for i := 0 to |nodes|
      invariant inDegree.Keys == Elems(nodes)
      invariant forall x | x in inDegree :: inDegree[x] == |ParentsIn(children, Elems(nodes[..i]), x)|
    {
      assert nodes[i] in Elems(nodes);
      ghost var before := inDegree;
      inDegree := CountKids(Kids(children, nodes[i]), inDegree);
      forall x | x in inDegree ensures inDegree[x] == |ParentsIn(children, Elems(nodes[..i + 1]), x)| {
        AddParent(children, nodes, i, x);
      }
    }
  }

  method CountKids(kids: seq<Id>, inDegree0: map<Id, int>) returns (inDegree: map<Id, int>)
    requires Distinct(kids) && Elems(kids) <= inDegree0.Keys
    ensures inDegree.Keys == inDegree0.Keys
    ensures forall x | x in inDegree :: inDegree[x] == inDegree0[x] + (if x in kids then 1 else 0)
  {
    inDegree := inDegree0;
    for j := 0 to |kids|
      invariant inDegree.Keys == inDegree0.Keys
      invariant forall x | x in inDegree :: inDegree[x] == inDegree0[x] + (if x in kids[..j] then 1 else 0)
    {
      assert kids[j] in Elems(kids);
      assert kids[..j + 1] == kids[..j] + [kids[j]];
      inDegree := inDegree[kids[j] := inDegree[kids[j]] + 1];
    }
    assert kids[..|kids|] == kids;
  }

  lemma AddParent(children: Children, nodes: seq<Id>, i: nat, x: Id)
    requires Distinct(nodes) && i < |nodes|
    ensures |ParentsIn(children, Elems(nodes[..i + 1]), x)|
         == |ParentsIn(children, Elems(nodes[..i]), x)| + (if x in Kids(children, nodes[i]) then 1 else 0)
  {
    var s := Elems(nodes[..i]);
    assert nodes[i] !in s;
    assert Elems(nodes[..i + 1]) == s + {nodes[i]};
    if x in Kids(children, nodes[i]) {
      assert ParentsIn(children, s + {nodes[i]}, x) == ParentsIn(children, s, x) + {nodes[i]};
    } else {
      assert ParentsIn(children, s + {nodes[i]}, x) == ParentsIn(children, s, x);
    }
  }

  lemma RemoveParent(children: Children, left: set<Id>, id: Id, x: Id)
    requires id in left
    ensures |ParentsIn(children, left, x)|
         == |ParentsIn(children, left - {id}, x)| + (if x in Kids(children, id) then 1 else 0)
  {
    if x in Kids(children, id) {
      assert ParentsIn(children, left, x) == ParentsIn(children, left - {id}, x) + {id};
    } else {
      assert ParentsIn(children, left, x) == ParentsIn(children, left - {id}, x);
    }
  }

  ghost predicate CountsParents(children: Children, left: set<Id>, inDegree: map<Id, int>) {
    left <= inDegree.Keys && forall x {:trigger inDegree[x]} | x in left :: inDegree[x] == |ParentsIn(children, left, x)|
  }

  ghost predicate ListsReady(ready: seq<Id>, left: set<Id>, inDegree: map<Id, int>)
    requires left <= inDegree.Keys
  {
    Distinct(ready) && forall x :: x in ready <==> x in left && inDegree[x] == 0
  }

  /** What the worklist loop keeps: `order` lists the removed nodes, parents first, and `left` holds the others. */
  ghost predicate Removed(nodes: set<Id>, children: Children, order: seq<Id>, left: set<Id>) {
    && left <= nodes
    && Distinct(order) && (forall x :: x in order <==> x in nodes && x !in left)
    && Topological(children, nodes, order)
  }

  lemma RemoveNext(nodes: set<Id>, children: Children, order: seq<Id>, left: set<Id>, id: Id)
    requires Removed(nodes, children, order, left) && id in left && ParentsIn(children, left, id) == {}
    ensures Removed(nodes, children, order + [id], left - {id}) && id !in Kids(children, id)
  {
    var next := order + [id];
    forall i, p | 0 <= i < |next| && p in nodes && next[i] in Kids(children, p) ensures p in next[..i] {
      if i == |order| {
        assert next[..i] == order;
        assert p in left ==> p in ParentsIn(children, left, id);
      } else {
        assert next[..i] == order[..i];
      }
    }
    assert id in Kids(children, id) ==> id in ParentsIn(children, left, id);
  }

  lemma KidsStillLeft(nodes: set<Id>, children: Children, order: seq<Id>, left: set<Id>, id: Id)
    requires WellFormed(nodes, children) && Removed(nodes, children, order, left) && id in left
    ensures forall x | x in Kids(children, id) :: x in left
  {
    forall x | x in Kids(children, id) ensures x in left {
      assert x in Elems(Kids(children, id));
      ParentListed(nodes, children, order, id, x);
    }
  }

  lemma ParentListed(nodes: set<Id>, children: Children, order: seq<Id>, p: Id, x: Id)
    requires Topological(children, nodes, order) && p in nodes && x in Kids(children, p)
    ensures x in order ==> p in order
  {
    if x in order {
      var i :| 0 <= i < |order| && order[i] == x;
      assert p in order[..i];
    }
  }

  lemma SomeParent(children: Children, s: set<Id>, x: Id)
    requires |ParentsIn(children, s, x)| != 0
    ensures HasParentIn(children, s, x)
  {
    var y :| y in ParentsIn(children, s, x);
  }

  lemma RemovedCount(nodes: set<Id>, children: Children, order: seq<Id>, left: set<Id>)
    requires Removed(nodes, children, order, left)
    ensures |order| + |left| == |nodes| && Elems(order) == nodes - left
  {
    DistinctSize(order);
    assert Elems(order) == nodes - left;
    assert nodes == (nodes - left) + left;
  }

  lemma LeftoverIsCyclic(children: Children, inDegree: map<Id, int>, left: set<Id>)
    requires CountsParents(children, left, inDegree) && ListsReady([], left, inDegree) && left != {}
    ensures Cyclic(children)
  {
    forall x {:trigger HasParentIn(children, left, x)} | x in left ensures HasParentIn(children, left, x) {
      assert x !in [] && inDegree[x] == |ParentsIn(children, left, x)|;
      SomeParent(children, left, x);
    }
    ParentClosedSetIsCyclic(children, left);
  }

  lemma NoCycleWhenAllRemoved(nodes: set<Id>, children: Children, inDegree: map<Id, int>, order: seq<Id>, left: set<Id>)
    requires WellFormed(nodes, children) && Removed(nodes, children, order, left)
    requires CountsParents(children, left, inDegree) && ListsReady([], left, inDegree)
    ensures |order| < |nodes| <==> Cyclic(children)
  {
    RemovedCount(nodes, children, order, left);
    if left == {} {
      TopologicalIsAcyclic(children, nodes, order);
    } else {
      LeftoverIsCyclic(children, inDegree, left);
    }
  }

  /** Kahn's algorithm over the whole graph: true exactly when some directed cycle exists anywhere in it. */
  method HasCycle(nodes: seq<Id>, children: Children) returns (cyclic: bool)
    requires Distinct(nodes) && WellFormed(Elems(nodes), children)
    ensures cyclic <==> Cyclic(children)
  {
    var inDegree := CountParents(nodes, children);
    ghost var all := Elems(nodes);
    var ready: seq<Id> := [];
    for i := 0 to |nodes|
      invariant Distinct(ready) && forall x :: x in ready <==> x in nodes[..i] && inDegree[x] == 0
    {
      assert nodes[..i + 1] == nodes[..i] + [nodes[i]];
      if inDegree[nodes[i]] == 0 {
        ready := ready + [nodes[i]];
      }
    }
    assert nodes[..|nodes|] == nodes;
    var removed := 0;
    ghost var order: seq<Id> := [];
    ghost var left := all;
    while |ready| > 0
      invariant inDegree.Keys == all && Removed(all, children, order, left) && removed == |order|
      invariant CountsParents(children, left, inDegree) && ListsReady(ready, left, inDegree)
      decreases left
    {
      var id := ready[|ready| - 1];
      assert id in ready && inDegree[id] == |ParentsIn(children, left, id)|;
      RemoveNext(all, children, order, left, id);
      PopReady(ready, left, inDegree);
      KidsStillLeft(all, children, order, left, id);
      inDegree, ready := ReleaseChildren(children, id, inDegree, ready[..|ready| - 1], all, left);
      removed := removed + 1;
      order := order + [id];
      left := left - {id};
    }
    assert ready == [];
    NoCycleWhenAllRemoved(all, children, inDegree, order, left);
    cyclic := removed < |inDegree|;
    assert |inDegree| == |inDegree.Keys|;
  }

  lemma PopReady(ready: seq<Id>, left: set<Id>, inDegree: map<Id, int>)
    requires left <= inDegree.Keys && ListsReady(ready, left, inDegree) && ready != []
    ensures ready[|ready| - 1] in left && ListsReady(ready[..|ready| - 1], left - {ready[|ready| - 1]}, inDegree)
  {
    var id := ready[|ready| - 1];
    assert id in ready;
    assert ready == ready[..|ready| - 1] + [id];
  }

  /** What the inner loop keeps after the first j children of the removed node. */
  ghost predicate Partway(children: Children, left: set<Id>, kids: seq<Id>, j: nat, inDegree: map<Id, int>) {
    && j <= |kids| && left <= inDegree.Keys
    && forall x {:trigger inDegree[x]} | x in left :: inDegree[x] == |ParentsIn(children, left, x)| + (if x in kids[j..] then 1 else 0)
  }

  lemma PartwayStart(children: Children, left: set<Id>, id: Id, inDegree: map<Id, int>)
    requires id in left && CountsParents(children, left, inDegree)
    ensures Partway(children, left - {id}, Kids(children, id), 0, inDegree)
  {
    var kids := Kids(children, id);
    assert kids[0..] == kids;
    forall x | x in left - {id}
      ensures inDegree[x] == |ParentsIn(children, left - {id}, x)| + (if x in kids then 1 else 0)
    {
      RemoveParent(children, left, id, x);
    }
  }

  lemma PartwayStep(children: Children, left: set<Id>, kids: seq<Id>, j: nat, inDegree: map<Id, int>)
    requires j < |kids| && Distinct(kids) && kids[j] in left
    requires Partway(children, left, kids, j, inDegree)
    ensures inDegree[kids[j]] >= 1
    ensures Partway(children, left, kids, j + 1, inDegree[kids[j] := inDegree[kids[j]] - 1])
  {
    assert kids[j..] == [kids[j]] + kids[j + 1..];
    assert kids[j] !in kids[j + 1..];
  }

  /** The inner loop of the worklist: one removed node gives up its edges, and a child left without parents is ready. */
  method ReleaseChildren(children: Children, id: Id, inDegree0: map<Id, int>, ready0: seq<Id>, ghost all: set<Id>, ghost left: set<Id>)
    returns (inDegree: map<Id, int>, ready: seq<Id>)
    requires WellFormed(all, children) && left <= all && inDegree0.Keys == all && id in left && id !in Kids(children, id)
    requires CountsParents(children, left, inDegree0) && ListsReady(ready0, left - {id}, inDegree0)
    requires forall x | x in Kids(children, id) :: x in left
    ensures inDegree.Keys == all
    ensures CountsParents(children, left - {id}, inDegree) && ListsReady(ready, left - {id}, inDegree)
  {
    inDegree, ready := inDegree0, ready0;
    var kids := Kids(children, id);
    ghost var rest := left - {id};
    PartwayStart(children, left, id, inDegree);
    for j := 0 to |kids|
      invariant inDegree.Keys == all && Partway(children, rest, kids, j, inDegree)
      invariant ListsReady(ready, rest, inDegree)
    {
      var child := kids[j];
      assert child in kids;
      PartwayStep(children, rest, kids, j, inDegree);
      assert child !in ready;
      inDegree := inDegree[child := inDegree[child] - 1];
      if inDegree[child] == 0 {
        ready := ready + [child];
      }
    }
    assert kids[|kids|..] == [];
  }

  // ---- Reachability -------------------------------------------------------------------------------------------

  /** The root and everything beneath it, sorted: a depth-first walk that expands each node once. */
  method ReachableFrom(root: Id, children: Children, ghost nodes: set<Id>) returns (out: seq<Id>)
    requires root in nodes && WellFormed(nodes, children)
    ensures Ascending(out)
    ensures forall x :: x in out <==> Reaches(children, root, x)
  {
    var seen := {root};
    var stack := [root];
    ReachesSelf(children, root);
    while |stack| > 0
      invariant root in seen && seen <= nodes && Elems(stack) <= seen
      invariant forall x | x in seen :: Reaches(children, root, x)
      invariant forall x, y | x in seen && x !in Elems(stack) && y in Kids(children, x) :: y in seen
      decreases nodes - seen, |stack|
    {
      var id := stack[|stack| - 1];
      assert id in Elems(stack);
      seen, stack := PushChildren(root, children, nodes, id, seen, stack[..|stack| - 1]);
    }
    out := SortSet(seen);
    forall x ensures x in out <==> Reaches(children, root, x) {
      assert x in out <==> x in Elems(out);
      if Reaches(children, root, x) {
        ClosedCoversReach(children, seen, root, x);
      }
    }
  }

  method PushChildren(ghost root: Id, children: Children, ghost nodes: set<Id>, id: Id, seen0: set<Id>, stack0: seq<Id>)
    returns (seen: set<Id>, stack: seq<Id>)
    requires WellFormed(nodes, children) && root in seen0 && id in seen0 && seen0 <= nodes && Elems(stack0) <= seen0
    requires forall x | x in seen0 :: Reaches(children, root, x)
    requires forall x, y | x in seen0 && x != id && x !in Elems(stack0) && y in Kids(children, x) :: y in seen0
    ensures seen0 <= seen <= nodes && Elems(stack) <= seen
    ensures seen == seen0 ==> stack == stack0
    ensures forall x | x in seen :: Reaches(children, root, x)
    ensures forall x, y | x in seen && x !in Elems(stack) && y in Kids(children, x) :: y in seen
  {
    seen, stack := seen0, stack0;
    var kids := Kids(children, id);
    for j := 0 to |kids|
      invariant seen0 <= seen <= nodes && Elems(stack) <= seen && Elems(stack0) <= Elems(stack)
      invariant seen - seen0 <= Elems(stack)
      invariant seen == seen0 ==> stack == stack0
      invariant forall x | x in seen :: Reaches(children, root, x)
      invariant forall k | 0 <= k < j :: kids[k] in seen
    {
      var child := kids[j];
      assert child in Elems(kids);
      if child in seen {
        continue;
      }
      ReachesStep(children, root, id, child);
      ElemsSnoc(stack, child);
      seen := seen + {child};
      stack := stack + [child];
    }
    ExpandedNode(children, id, seen0, Elems(stack0), seen, Elems(stack));
  }

  lemma ElemsSnoc(s: seq<Id>, x: Id)
    ensures Elems(s + [x]) == Elems(s) + {x}
  {
  }

  lemma ExpandedNode(children: Children, id: Id, seen0: set<Id>, stack0: set<Id>, seen: set<Id>, stack: set<Id>)
    requires seen0 <= seen && stack0 <= stack && seen - seen0 <= stack
    requires forall x, y | x in seen0 && x != id && x !in stack0 && y in Kids(children, x) :: y in seen0
    requires forall k | 0 <= k < |Kids(children, id)| :: Kids(children, id)[k] in seen
    ensures forall x, y | x in seen && x !in stack && y in Kids(children, x) :: y in seen
  {
  }
}
