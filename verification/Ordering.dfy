/** Byte order on strings (a string is a sequence of bytes held as chars) sorted identifier lists, and rearranged lists. */
module Ordering {

  type Id = string

  predicate Less(a: string, b: string) {
    b != [] && (a == [] || a[0] < b[0] || (a[0] == b[0] && Less(a[1..], b[1..])))
  }

  lemma {:induction false} LessIrreflexive(a: string)
    ensures !Less(a, a)
  {
    if a != [] {
      LessIrreflexive(a[1..]);
    }
  }

  lemma {:induction false} LessTransitive(a: string, b: string, c: string)
    requires Less(a, b) && Less(b, c)
    ensures Less(a, c)
  {
    if a != [] && a[0] == b[0] == c[0] {
      LessTransitive(a[1..], b[1..], c[1..]);
    }
  }

  lemma {:induction false} LessTotal(a: string, b: string)
    ensures a == b || Less(a, b) || Less(b, a)
  {
    if a != [] && b != [] && a[0] == b[0] {
      LessTotal(a[1..], b[1..]);
      assert a == [a[0]] + a[1..] && b == [b[0]] + b[1..];
    }
  }

  lemma LessAsymmetric(a: string, b: string)
    requires Less(a, b)
    ensures a != b && !Less(b, a)
  {
    LessIrreflexive(a);
    if Less(b, a) {
      LessTransitive(a, b, a);
    }
  }

  ghost predicate Ascending(s: seq<Id>) {
    forall i, j :: 0 <= i < j < |s| ==> Less(s[i], s[j])
  }

  function Elems<T>(s: seq<T>): set<T> {
    set x | x in s
  }

  ghost predicate Distinct<T>(s: seq<T>) {
    forall i, j :: 0 <= i < j < |s| ==> s[i] != s[j]
  }

  lemma AscendingDistinct(s: seq<Id>)
    requires Ascending(s)
    ensures Distinct(s)
  {
    forall i, j | 0 <= i < j < |s| ensures s[i] != s[j] {
      LessAsymmetric(s[i], s[j]);
    }
  }

  lemma {:induction false} DistinctSize<T>(s: seq<T>)
    requires Distinct(s)
    ensures |Elems(s)| == |s|
  {
    if s != [] {
      DistinctSize(s[1..]);
      assert Elems(s) == {s[0]} + Elems(s[1..]);
    } else {
      assert Elems(s) == {};
    }
  }

  lemma AscendingHead(s: seq<Id>)
    requires Ascending(s) && s != []
    ensures Elems(s[1..]) == Elems(s) - {s[0]} && Ascending(s[1..])
  {
    AscendingDistinct(s);
    assert s == [s[0]] + s[1..];
  }

  lemma NoElems<T>(s: seq<T>)
    ensures Elems(s) == {} <==> s == []
  {
    if s != [] {
      assert s[0] in Elems(s);
    }
  }

  /** A sorted list is determined by its elements. */
  lemma {:induction false} AscendingUnique(s: seq<Id>, t: seq<Id>)
    requires Ascending(s) && Ascending(t) && Elems(s) == Elems(t)
    ensures s == t
  {
    NoElems(s);
    NoElems(t);
    if s != [] {
      assert s[0] in Elems(t);
      assert t[0] in Elems(s);
      var i :| 0 <= i < |t| && t[i] == s[0];
      var j :| 0 <= j < |s| && s[j] == t[0];
      if i > 0 && j > 0 {
        LessAsymmetric(s[0], s[j]);
      }
      AscendingHead(s);
      AscendingHead(t);
      AscendingUnique(s[1..], t[1..]);
      assert s == [s[0]] + s[1..] && t == [t[0]] + t[1..];
    }
  }

  ghost predicate IsLeast(m: Id, s: set<Id>) {
    m in s && forall x | x in s :: x == m || Less(m, x)
  }

  lemma {:induction false} LeastExists(s: set<Id>) returns (m: Id)
    requires s != {}
    ensures IsLeast(m, s)
  {
    var a :| a in s;
    var rest := s - {a};
    if rest == {} {
      m := a;
      assert s == {a};
    } else {
      m := LeastExists(rest);
      LessTotal(a, m);
      if Less(a, m) {
        forall x | x in rest && x != m ensures Less(a, x) {
          LessTransitive(a, m, x);
        }
        m := a;
      }
      assert s == rest + {a};
    }
  }

  lemma LeastNonVacuous(s: set<Id>)
    requires s != {}
    ensures exists m :: IsLeast(m, s)
  {
    var m := LeastExists(s);
  }

  /** The elements of a set in ascending order. */
  ghost function SortIds(s: set<Id>): (r: seq<Id>)
    ensures Ascending(r) && Elems(r) == s
    decreases |s|
  {
    if s == {} then []
    else
      LeastNonVacuous(s);
      var m :| IsLeast(m, s);
      var rest := SortIds(s - {m});
      AscendingPrepend(m, rest);
      [m] + rest
  }

  lemma AscendingPrepend(m: Id, rest: seq<Id>)
    requires Ascending(rest) && forall x | x in Elems(rest) :: Less(m, x)
    ensures Ascending([m] + rest) && Elems([m] + rest) == {m} + Elems(rest)
  {
    forall i, j | 0 <= i < j < |[m] + rest| ensures Less(([m] + rest)[i], ([m] + rest)[j]) {
      assert rest[j - 1] in Elems(rest);
      if i > 0 { assert Less(rest[i - 1], rest[j - 1]); }
    }
  }

  lemma SortIdsUnique(s: seq<Id>)
    requires Ascending(s)
    ensures s == SortIds(Elems(s))
  {
    AscendingUnique(s, SortIds(Elems(s)));
  }

  /** slices.Sort over the keys collected from a set-like map. */
  method SortSet(s: set<Id>) returns (r: seq<Id>)
    ensures r == SortIds(s)
  {
    r := [];
    var rest := s;
    while rest != {}
      invariant Ascending(r) && rest !! Elems(r) && rest + Elems(r) == s
      decreases |rest|
    {
      var x :| x in rest;
      r := Insert(r, x);
      rest := rest - {x};
    }
    AscendingUnique(r, SortIds(s));
  }

  method Insert(s: seq<Id>, x: Id) returns (r: seq<Id>)
    requires Ascending(s) && x !in s
    ensures Ascending(r) && Elems(r) == Elems(s) + {x}
  {
    var i := 0;
    while i < |s| && Less(s[i], x)
      invariant 0 <= i <= |s|
      invariant forall k :: 0 <= k < i ==> Less(s[k], x)
    {
      i := i + 1;
    }
    forall k | i <= k < |s| ensures Less(x, s[k]) {
      LessTotal(x, s[i]);
      if k > i { LessTransitive(x, s[i], s[k]); }
    }
    r := s[..i] + [x] + s[i..];
    assert s == s[..i] + s[i..];
  }

  lemma WithoutElement<T>(b: seq<T>, i: nat)
    requires i < |b|
    ensures multiset(b) == multiset(b[..i] + b[i + 1..]) + multiset{b[i]}
  {
    assert b == b[..i] + [b[i]] + b[i + 1..];
  }

  lemma CancelOne<T>(x: T, m: multiset<T>, n: multiset<T>)
    requires m + multiset{x} == n + multiset{x}
    ensures m == n
  {
    assert m == (m + multiset{x}) - multiset{x};
    assert n == (n + multiset{x}) - multiset{x};
  }

  /** Two arrangements of one list, without the last of the first. */
  lemma SameWithoutOne<T>(a: seq<T>, b: seq<T>) returns (i: nat)
    requires a != [] && multiset(a) == multiset(b)
    ensures i < |b| && b[i] == a[|a| - 1] && multiset(a[..|a| - 1]) == multiset(b[..i] + b[i + 1..])
  {
    var init, last := a[..|a| - 1], a[|a| - 1];
    assert last in multiset(b);
    i :| 0 <= i < |b| && b[i] == last;
    WithoutElement(b, i);
    assert a == init + [last];
    assert multiset(a) == multiset(init) + multiset{last};
    CancelOne(last, multiset(init), multiset(b[..i] + b[i + 1..]));
  }
}
