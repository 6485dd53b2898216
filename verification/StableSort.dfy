/** The sort the program relies on: JavaScript's stable `Array.prototype.sort`,
    given as insertion from the right under a comparator, with the three facts
    that pin its result down: ordered, a rearrangement, and stable. */
module StableSort {
  import opened Collections

  ghost predicate TotalPreorder<T(!new)>(leq: (T, T) -> bool)
  {
    && (forall a, b :: leq(a, b) || leq(b, a))
    && (forall a, b, c :: leq(a, b) && leq(b, c) ==> leq(a, c))
  }

  ghost predicate Sorted<T>(leq: (T, T) -> bool, s: seq<T>)
  {
    forall i, j :: 0 <= i < j < |s| ==> leq(s[i], s[j])
  }

  function Insert<T>(leq: (T, T) -> bool, s: seq<T>, x: T): (r: seq<T>)
    ensures |r| == |s| + 1
  {
    if s == [] || leq(s[|s| - 1], x) then s + [x]
    else Insert(leq, s[..|s| - 1], x) + [s[|s| - 1]]
  }

  function Sort<T>(leq: (T, T) -> bool, s: seq<T>): (r: seq<T>)
    ensures |r| == |s|
  {
    if s == [] then [] else Insert(leq, Sort(leq, s[..|s| - 1]), s[|s| - 1])
  }

  lemma {:induction false} InsertMultiset<T>(leq: (T, T) -> bool, s: seq<T>, x: T)
    ensures multiset(Insert(leq, s, x)) == multiset(s) + multiset{x}
  {
    if s != [] && !leq(s[|s| - 1], x) {
      InsertMultiset(leq, s[..|s| - 1], x);
      assert s == s[..|s| - 1] + [s[|s| - 1]];
    }
  }

  lemma {:induction false} SortPermutes<T>(leq: (T, T) -> bool, s: seq<T>)
    ensures multiset(Sort(leq, s)) == multiset(s)
  {
    if s != [] {
      SortPermutes(leq, s[..|s| - 1]);
      InsertMultiset(leq, Sort(leq, s[..|s| - 1]), s[|s| - 1]);
      assert s == s[..|s| - 1] + [s[|s| - 1]];
    }
  }

  lemma {:induction false} InsertSorted<T(!new)>(leq: (T, T) -> bool, s: seq<T>, x: T)
    requires TotalPreorder(leq) && Sorted(leq, s)
    ensures Sorted(leq, Insert(leq, s, x))
  {
    if s != [] && !leq(s[|s| - 1], x) {
      var front := s[..|s| - 1];
      InsertSorted(leq, front, x);
      InsertMultiset(leq, front, x);
      var r := Insert(leq, front, x);
      forall i | 0 <= i < |r|
        ensures leq(r[i], s[|s| - 1])
      {
        assert r[i] in multiset(r);
        assert r[i] == x || r[i] in front;
      }
    }
  }

  lemma {:induction false} SortSorted<T(!new)>(leq: (T, T) -> bool, s: seq<T>)
    requires TotalPreorder(leq)
    ensures Sorted(leq, Sort(leq, s))
  {
    if s != [] {
      SortSorted(leq, s[..|s| - 1]);
      InsertSorted(leq, Sort(leq, s[..|s| - 1]), s[|s| - 1]);
    }
  }

  lemma {:induction false} FilterInsert<T(!new)>(leq: (T, T) -> bool, p: T -> bool, s: seq<T>, x: T)
    requires TotalPreorder(leq) && Sorted(leq, s)
    ensures Filter(p, Insert(leq, s, x))
         == if p(x) then Insert(leq, Filter(p, s), x) else Filter(p, s)
  {
    if s == [] {
    } else if leq(s[|s| - 1], x) {
      FilterMembers(p, s);
      var f := Filter(p, s);
      if f != [] {
        assert f[|f| - 1] in s;
        assert leq(f[|f| - 1], x);
      }
      assert (s + [x])[..|s|] == s;
    } else {
      var front := s[..|s| - 1];
      FilterInsert(leq, p, front, x);
      var r := Insert(leq, front, x) + [s[|s| - 1]];
      assert r[..|r| - 1] == Insert(leq, front, x);
      if p(s[|s| - 1]) {
        var f := Filter(p, s);
        assert f[..|f| - 1] == Filter(p, front);
      } else if p(x) {
        assert Filter(p, s) == Filter(p, front);
      }
    }
  }

  /** Sorting commutes with filtering; taking for `p` a class of mutually equal
      elements, this is stability. */
  lemma {:induction false} FilterSort<T(!new)>(leq: (T, T) -> bool, p: T -> bool, s: seq<T>)
    requires TotalPreorder(leq)
    ensures Filter(p, Sort(leq, s)) == Sort(leq, Filter(p, s))
  {
    if s != [] {
      var front := s[..|s| - 1];
      FilterSort(leq, p, front);
      SortSorted(leq, front);
      FilterInsert(leq, p, Sort(leq, front), s[|s| - 1]);
      if p(s[|s| - 1]) {
        var f := Filter(p, s);
        assert f[..|f| - 1] == Filter(p, front);
      }
    }
  }

  /** `s[i]` is minimal, and nothing before it is. */
  ghost predicate LeftmostMinimal<T>(leq: (T, T) -> bool, s: seq<T>, i: nat)
  {
    && i < |s|
    && (forall j :: 0 <= j < |s| ==> leq(s[i], s[j]))
    && (forall j :: 0 <= j < i ==> !leq(s[j], s[i]))
  }

  lemma LeftmostStep<T(!new)>(leq: (T, T) -> bool, s: seq<T>, i: nat, x: T)
    requires TotalPreorder(leq) && LeftmostMinimal(leq, s, i)
    ensures LeftmostMinimal(leq, s + [x], if leq(s[i], x) then i else |s|)
  {
  }

  /** The head of a stable sort is the leftmost minimal element. */
  lemma {:induction false} SortHead<T(!new)>(leq: (T, T) -> bool, s: seq<T>) returns (i: nat)
    requires TotalPreorder(leq) && s != []
    ensures LeftmostMinimal(leq, s, i) && Sort(leq, s)[0] == s[i]
  {
    var front, x := s[..|s| - 1], s[|s| - 1];
    assert s == front + [x];
    if front == [] {
      assert leq(x, x);
      return 0;
    }
    i := SortHead(leq, front);
    LeftmostStep(leq, front, i, x);
    SortSorted(leq, front);
    InsertHead(leq, Sort(leq, front), x);
    if !leq(front[i], x) {
      i := |front|;
    }
  }

  lemma {:induction false} InsertHead<T(!new)>(leq: (T, T) -> bool, s: seq<T>, x: T)
    requires TotalPreorder(leq) && Sorted(leq, s) && s != []
    ensures Insert(leq, s, x)[0] == if leq(s[0], x) then s[0] else x
  {
    if !leq(s[|s| - 1], x) && |s| > 1 {
      InsertHead(leq, s[..|s| - 1], x);
    }
  }

  /** A list that is already ordered is left alone. */
  lemma {:induction false} SortIdentity<T>(leq: (T, T) -> bool, s: seq<T>)
    requires Sorted(leq, s)
    ensures Sort(leq, s) == s
  {
    if s != [] {
      SortIdentity(leq, s[..|s| - 1]);
      if |s| > 1 {
        assert leq(s[|s| - 2], s[|s| - 1]);
      }
    }
  }

  /** The comparator separates the distinct elements of `s`. */
  ghost predicate Separates<T>(leq: (T, T) -> bool, s: seq<T>)
  {
    forall x, y :: x in s && y in s && leq(x, y) && leq(y, x) ==> x == y
  }

  lemma SortedLast<T>(leq: (T, T) -> bool, a: seq<T>, b: seq<T>)
    requires Sorted(leq, a) && Sorted(leq, b) && multiset(a) == multiset(b) && a != []
    requires Separates(leq, a)
    ensures |a| == |b| && a[|a| - 1] == b[|b| - 1]
  {
    PermutationMembers(a, b);
    var x, y := a[|a| - 1], b[|b| - 1];
    assert y in b && x in a;
    var i :| 0 <= i < |a| && a[i] == y;
    var j :| 0 <= j < |b| && b[j] == x;
    assert i == |a| - 1 || leq(y, x);
    assert j == |b| - 1 || leq(x, y);
  }

  lemma DropLastMultiset<T>(a: seq<T>)
    requires a != []
    ensures multiset(a[..|a| - 1]) == multiset(a) - multiset{a[|a| - 1]}
  {
    assert a == a[..|a| - 1] + [a[|a| - 1]];
  }

  /** Under a comparator that separates the elements, the sorted list is determined by
      the elements alone. */
  lemma {:induction false} SortedUnique<T>(leq: (T, T) -> bool, a: seq<T>, b: seq<T>)
    requires Sorted(leq, a) && Sorted(leq, b) && multiset(a) == multiset(b)
    requires Separates(leq, a)
    ensures a == b
  {
    PermutationMembers(a, b);
    if a != [] {
      SortedLast(leq, a, b);
      DropLastMultiset(a);
      DropLastMultiset(b);
      SortedUnique(leq, a[..|a| - 1], b[..|b| - 1]);
      assert a == a[..|a| - 1] + [a[|a| - 1]];
    }
  }

  /** Equal multisets sort to equal lists when the comparator separates the elements. */
  lemma SortAgrees<T(!new)>(leq: (T, T) -> bool, a: seq<T>, b: seq<T>)
    requires TotalPreorder(leq) && Separates(leq, a)
    ensures Sort(leq, a) == Sort(leq, b) <==> multiset(a) == multiset(b)
  {
    SortPermutes(leq, a);
    SortPermutes(leq, b);
    SortSorted(leq, a);
    SortSorted(leq, b);
    PermutationMembers(a, Sort(leq, a));
    if multiset(a) == multiset(b) {
      SortedUnique(leq, Sort(leq, a), Sort(leq, b));
    }
  }

  // ---- When two arrangements sort alike --------------------------------------

  function TieTest<T>(leq: (T, T) -> bool, x: T): T -> bool
  {
    y => leq(x, y) && leq(y, x)
  }

  /** The elements tied with any one stand in the same order in both lists. */
  ghost predicate TiesAgree<T>(leq: (T, T) -> bool, a: seq<T>, b: seq<T>)
  {
    forall k :: 0 <= k < |a| ==> Filter(TieTest(leq, a[k]), a) == Filter(TieTest(leq, a[k]), b)
  }

  lemma TiesStay<T(!new)>(leq: (T, T) -> bool, x: T, s: seq<T>)
    requires TotalPreorder(leq)
    ensures Filter(TieTest(leq, x), Sort(leq, s)) == Filter(TieTest(leq, x), s)
  {
    var tied := TieTest(leq, x);
    FilterSort(leq, tied, s);
    FilterPasses(tied, s);
    assert forall i :: 0 <= i < |Filter(tied, s)| ==> tied(Filter(tied, s)[i]);
    SortIdentity(leq, Filter(tied, s));
  }

  lemma LastsTied<T(!new)>(leq: (T, T) -> bool, a: seq<T>, b: seq<T>)
    requires TotalPreorder(leq) && Sorted(leq, a) && Sorted(leq, b) && multiset(a) == multiset(b) && a != []
    ensures |a| == |b| && TieTest(leq, a[|a| - 1])(b[|b| - 1]) && TieTest(leq, a[|a| - 1])(a[|a| - 1])
  {
    PermutationMembers(a, b);
    var x, y := a[|a| - 1], b[|b| - 1];
    assert y in b && x in a;
    var i :| 0 <= i < |a| && a[i] == y;
    var j :| 0 <= j < |b| && b[j] == x;
    assert leq(x, x) && leq(y, y);
    assert i == |a| - 1 || leq(y, x);
    assert j == |b| - 1 || leq(x, y);
  }

  lemma LastsEqual<T(!new)>(leq: (T, T) -> bool, a: seq<T>, b: seq<T>)
    requires TotalPreorder(leq) && Sorted(leq, a) && Sorted(leq, b) && multiset(a) == multiset(b) && a != []
    requires TiesAgree(leq, a, b)
    ensures |a| == |b| && a[|a| - 1] == b[|b| - 1]
  {
    LastsTied(leq, a, b);
    var tied := TieTest(leq, a[|a| - 1]);
    assert Filter(tied, a) == Filter(tied, b);
    assert Filter(tied, a)[|Filter(tied, a)| - 1] == a[|a| - 1];
    assert Filter(tied, b)[|Filter(tied, b)| - 1] == b[|b| - 1];
  }

  lemma FrontTies<T>(leq: (T, T) -> bool, a: seq<T>, b: seq<T>)
    requires a != [] && |a| == |b| && a[|a| - 1] == b[|b| - 1] && TiesAgree(leq, a, b)
    ensures TiesAgree(leq, a[..|a| - 1], b[..|b| - 1])
  {
    var n := |a| - 1;
    forall k | 0 <= k < n
      ensures Filter(TieTest(leq, a[k]), a[..n]) == Filter(TieTest(leq, a[k]), b[..n])
    {
      var tied := TieTest(leq, a[k]);
      var u, v := Filter(tied, a[..n]), Filter(tied, b[..n]);
      assert Filter(tied, a) == Filter(tied, b);
      if tied(a[n]) {
        assert u == (u + [a[n]])[..|u|] && v == (v + [a[n]])[..|v|];
      }
    }
  }

  /** What the last elements leave is again sorted, of the same elements, with the same ties. */
  lemma FrontsAlike<T(!new)>(leq: (T, T) -> bool, a: seq<T>, b: seq<T>)
    requires TotalPreorder(leq) && Sorted(leq, a) && Sorted(leq, b) && multiset(a) == multiset(b) && a != []
    requires TiesAgree(leq, a, b)
    ensures |a| == |b| && a[|a| - 1] == b[|b| - 1]
    ensures Sorted(leq, a[..|a| - 1]) && Sorted(leq, b[..|b| - 1])
    ensures multiset(a[..|a| - 1]) == multiset(b[..|b| - 1]) && TiesAgree(leq, a[..|a| - 1], b[..|b| - 1])
  {
    LastsEqual(leq, a, b);
    DropLastMultiset(a);
    DropLastMultiset(b);
    FrontTies(leq, a, b);
  }

  /** Sorted lists of the same elements whose ties agree are equal. */
  lemma {:induction false} SortedByTies<T(!new)>(leq: (T, T) -> bool, a: seq<T>, b: seq<T>)
    requires TotalPreorder(leq) && Sorted(leq, a) && Sorted(leq, b) && multiset(a) == multiset(b)
    requires TiesAgree(leq, a, b)
    ensures a == b
    decreases |a|
  {
    PermutationMembers(a, b);
    if a != [] {
      var n := |a| - 1;
      FrontsAlike(leq, a, b);
      SortedByTies(leq, a[..n], b[..n]);
      assert a == a[..n] + [a[n]] && b == b[..n] + [b[n]];
    }
  }

  /** Two arrangements of the same elements sort to the same list exactly when tied
      elements stand in the same order in both. */
  lemma SortAgreesIff<T(!new)>(leq: (T, T) -> bool, a: seq<T>, b: seq<T>)
    requires TotalPreorder(leq) && multiset(a) == multiset(b)
    ensures Sort(leq, a) == Sort(leq, b) <==> TiesAgree(leq, a, b)
  {
    var s, t := Sort(leq, a), Sort(leq, b);
    SortPermutes(leq, a);
    SortPermutes(leq, b);
    PermutationMembers(a, s);
    if s == t {
      forall k | 0 <= k < |a|
        ensures Filter(TieTest(leq, a[k]), a) == Filter(TieTest(leq, a[k]), b)
      {
        TiesStay(leq, a[k], a);
        TiesStay(leq, a[k], b);
      }
    }
    if TiesAgree(leq, a, b) {
      SortSorted(leq, a);
      SortSorted(leq, b);
      forall k | 0 <= k < |s|
        ensures Filter(TieTest(leq, s[k]), s) == Filter(TieTest(leq, s[k]), t)
      {
        assert s[k] in a;
        var i :| 0 <= i < |a| && a[i] == s[k];
        TiesStay(leq, s[k], a);
        TiesStay(leq, s[k], b);
      }
      SortedByTies(leq, s, t);
    }
  }
}
