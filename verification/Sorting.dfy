/**
 Stable sorting by a comparison, and the lexicographic order that Python uses on tuples and
 strings.  Every `sorted(...)` of the modelled code goes through `Sort`.
 */
module Sorting {

  ghost predicate TotalPreorder<T(!new)>(leq: (T, T) -> bool) {
    && (forall a, b :: leq(a, b) || leq(b, a))
    && (forall a, b, c :: leq(a, b) && leq(b, c) ==> leq(a, c))
  }

  ghost predicate SortedBy<T>(s: seq<T>, leq: (T, T) -> bool) {
    forall i, j :: 0 <= i < j < |s| ==> leq(s[i], s[j])
  }

  /** Insert `x` behind the last element that is not above it. */
  function Insert<T>(x: T, s: seq<T>, leq: (T, T) -> bool): seq<T> {
    if s == [] then [x]
    else if leq(s[|s| - 1], x) then s + [x]
    else Insert(x, s[..|s| - 1], leq) + [s[|s| - 1]]
  }

  function Sort<T>(s: seq<T>, leq: (T, T) -> bool): seq<T> {
    if s == [] then [] else Insert(s[|s| - 1], Sort(s[..|s| - 1], leq), leq)
  }

  lemma {:induction false} InsertPermutes<T>(x: T, s: seq<T>, leq: (T, T) -> bool)
    ensures multiset(Insert(x, s, leq)) == multiset(s) + multiset{x}
  {
    if s != [] && !leq(s[|s| - 1], x) {
      InsertPermutes(x, s[..|s| - 1], leq);
      assert s == s[..|s| - 1] + [s[|s| - 1]];
    }
  }

  lemma {:induction false} InsertSorts<T(!new)>(x: T, s: seq<T>, leq: (T, T) -> bool)
    requires TotalPreorder(leq) && SortedBy(s, leq)
    ensures SortedBy(Insert(x, s, leq), leq)
  {
    if s != [] && !leq(s[|s| - 1], x) {
      var front, last := s[..|s| - 1], s[|s| - 1];
      InsertSorts(x, front, leq);
      InsertPermutes(x, front, leq);
      var r := Insert(x, front, leq);
      forall i | 0 <= i < |r| ensures leq(r[i], last) {
        assert r[i] in multiset(r);
        assert r[i] in multiset(front) + multiset{x};
      }
    }
  }

  lemma {:induction false} SortPermutes<T>(s: seq<T>, leq: (T, T) -> bool)
    ensures multiset(Sort(s, leq)) == multiset(s)
    ensures |Sort(s, leq)| == |s|
  {
    if s != [] {
      var front := s[..|s| - 1];
      SortPermutes(front, leq);
      InsertPermutes(s[|s| - 1], Sort(front, leq), leq);
      assert s == front + [s[|s| - 1]];
    }
    assert |multiset(Sort(s, leq))| == |multiset(s)|;
  }

  lemma {:induction false} SortSorts<T(!new)>(s: seq<T>, leq: (T, T) -> bool)
    requires TotalPreorder(leq)
    ensures SortedBy(Sort(s, leq), leq)
  {
    if s != [] {
      SortSorts(s[..|s| - 1], leq);
      InsertSorts(s[|s| - 1], Sort(s[..|s| - 1], leq), leq);
    }
  }

  /** Every element of the input is in the output and the other way round. */
  lemma SortMembers<T>(s: seq<T>, leq: (T, T) -> bool)
    ensures forall x :: x in Sort(s, leq) <==> x in s
  {
    SortPermutes(s, leq);
    forall x ensures x in Sort(s, leq) <==> x in s {
      assert x in Sort(s, leq) <==> x in multiset(Sort(s, leq));
      assert x in s <==> x in multiset(s);
    }
  }

  lemma {:induction false} SortedIsFixed<T>(s: seq<T>, leq: (T, T) -> bool)
    requires SortedBy(s, leq)
    ensures Sort(s, leq) == s
  {
    if s != [] {
      var front := s[..|s| - 1];
      SortedIsFixed(front, leq);
      assert s == front + [s[|s| - 1]];
    }
  }

  /** Distinct elements of `s` never compare equal. */
  ghost predicate NoTies<T>(s: seq<T>, leq: (T, T) -> bool) {
    forall i, j :: 0 <= i < |s| && 0 <= j < |s| && leq(s[i], s[j]) && leq(s[j], s[i]) ==> s[i] == s[j]
  }

  /** Two sorted arrangements of the same elements end with the same element. */
  lemma SameLast<T>(a: seq<T>, b: seq<T>, leq: (T, T) -> bool)
    requires multiset(a) == multiset(b) && a != [] && b != []
    requires SortedBy(a, leq) && SortedBy(b, leq) && NoTies(a, leq)
    ensures a[|a| - 1] == b[|b| - 1]
  {
    var x, y := a[|a| - 1], b[|b| - 1];
    assert y in multiset(b) && x in multiset(a);
    var i :| 0 <= i < |a| && a[i] == y;
    assert x in multiset(b);
    var j :| 0 <= j < |b| && b[j] == x;
    assert i == |a| - 1 || leq(a[i], x);
    assert j == |b| - 1 || leq(b[j], y);
  }

  lemma FrontKeeps<T>(s: seq<T>, leq: (T, T) -> bool)
    requires s != [] && SortedBy(s, leq)
    ensures SortedBy(s[..|s| - 1], leq)
    ensures NoTies(s, leq) ==> NoTies(s[..|s| - 1], leq)
    ensures multiset(s[..|s| - 1]) == multiset(s) - multiset{s[|s| - 1]}
  {
    var front := s[..|s| - 1];
    assert forall i :: 0 <= i < |front| ==> front[i] == s[i];
    LastOut(s);
  }

  lemma LastOut<T>(s: seq<T>)
    requires s != []
    ensures multiset(s[..|s| - 1]) == multiset(s) - multiset{s[|s| - 1]}
  {
    assert s == s[..|s| - 1] + [s[|s| - 1]];
  }

  /** Two sorted arrangements of the same elements are equal when no two elements tie. */
  lemma {:induction false} SortedIsUnique<T>(a: seq<T>, b: seq<T>, leq: (T, T) -> bool)
    requires multiset(a) == multiset(b)
    requires SortedBy(a, leq) && SortedBy(b, leq) && NoTies(a, leq)
    ensures a == b
  {
    hide SortedBy, NoTies;
    assert |a| == |multiset(a)| == |multiset(b)| == |b|;
    if a != [] {
      SameLast(a, b, leq);
      FrontKeeps(a, leq);
      FrontKeeps(b, leq);
      SortedIsUnique(a[..|a| - 1], b[..|b| - 1], leq);
      assert a == a[..|a| - 1] + [a[|a| - 1]] && b == b[..|b| - 1] + [a[|a| - 1]];
    }
  }

  /** Sorting forgets the order of the input when no two elements tie. */
  lemma SortForgetsOrder<T(!new)>(s: seq<T>, t: seq<T>, leq: (T, T) -> bool)
    requires TotalPreorder(leq)
    requires multiset(s) == multiset(t) && NoTies(s, leq)
    ensures Sort(s, leq) == Sort(t, leq)
  {
    SortPermutes(s, leq);
    SortPermutes(t, leq);
    SortSorts(s, leq);
    SortSorts(t, leq);
    var a := Sort(s, leq);
    forall i, j | 0 <= i < |a| && 0 <= j < |a| && leq(a[i], a[j]) && leq(a[j], a[i])
      ensures a[i] == a[j]
    {
      SortMembers(s, leq);
      assert a[i] in s && a[j] in s;
    }
    SortedIsUnique(a, Sort(t, leq), leq);
  }

  /** Tuple comparison: the first difference decides, and a proper prefix comes first. */
  predicate LexLeq(a: seq<int>, b: seq<int>) {
    if a == [] then true
    else if b == [] then false
    else if a[0] != b[0] then a[0] < b[0]
    else LexLeq(a[1..], b[1..])
  }

  lemma {:induction false} LexTotal(a: seq<int>, b: seq<int>)
    ensures LexLeq(a, b) || LexLeq(b, a)
  {
    if a != [] && b != [] && a[0] == b[0] {
      LexTotal(a[1..], b[1..]);
    }
  }

  lemma {:induction false} LexTransitive(a: seq<int>, b: seq<int>, c: seq<int>)
    requires LexLeq(a, b) && LexLeq(b, c)
    ensures LexLeq(a, c)
  {
    if a != [] && b != [] && c != [] && a[0] == b[0] == c[0] {
      LexTransitive(a[1..], b[1..], c[1..]);
    }
  }

  lemma {:induction false} LexAntisymmetric(a: seq<int>, b: seq<int>)
    requires LexLeq(a, b) && LexLeq(b, a)
    ensures a == b
  {
    if a != [] && b != [] {
      LexAntisymmetric(a[1..], b[1..]);
      assert a == [a[0]] + a[1..] && b == [b[0]] + b[1..];
    }
  }

  /** Comparing by a tuple-valued key is a total preorder. */
  lemma KeyOrderIsTotal<T(!new)>(key: T -> seq<int>, leq: (T, T) -> bool)
    requires forall a, b :: leq(a, b) == LexLeq(key(a), key(b))
    ensures TotalPreorder(leq)
  {
    forall a, b ensures leq(a, b) || leq(b, a) {
      LexTotal(key(a), key(b));
    }
    forall a, b, c | leq(a, b) && leq(b, c) ensures leq(a, c) {
      LexTransitive(key(a), key(b), key(c));
    }
  }
}
