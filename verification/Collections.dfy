/** Small vocabulary shared by the models: optional values, filtering,
    mapping, and the "distinct values in first-seen order" idiom that the
    program writes as `[...new Set(xs)]`. */
module Collections {

  datatype Option<+T> = None | Some(value: T)

  function Filter<T>(p: T -> bool, s: seq<T>): (r: seq<T>)
  {
    if s == [] then []
    else
      var rest := Filter(p, s[..|s| - 1]);
      if p(s[|s| - 1]) then rest + [s[|s| - 1]] else rest
  }

  lemma {:induction false} FilterMembers<T>(p: T -> bool, s: seq<T>)
    ensures forall x :: x in Filter(p, s) <==> x in s && p(x)
    ensures |Filter(p, s)| <= |s|
  {
    if s != [] {
      FilterMembers(p, s[..|s| - 1]);
      assert s == s[..|s| - 1] + [s[|s| - 1]];
    }
  }

  lemma {:induction false} FilterPasses<T>(p: T -> bool, s: seq<T>)
    ensures forall i :: 0 <= i < |Filter(p, s)| ==> p(Filter(p, s)[i])
  {
    if s != [] {
      FilterPasses(p, s[..|s| - 1]);
    }
  }

  lemma {:induction false} FilterConcat<T>(p: T -> bool, a: seq<T>, b: seq<T>)
    ensures Filter(p, a + b) == Filter(p, a) + Filter(p, b)
  {
    if b == [] {
      assert a + b == a;
    } else {
      FilterConcat(p, a, b[..|b| - 1]);
      assert (a + b)[..|a + b| - 1] == a + b[..|b| - 1];
    }
  }

  /** Taking out of a rearrangement `b` one occurrence of the last element of `a`. */
  lemma RemoveLast<T>(a: seq<T>, b: seq<T>) returns (front: seq<T>, x: seq<T>, u: seq<T>, v: seq<T>)
    requires a != [] && multiset(a) == multiset(b)
    ensures |x| == 1 && a == front + x && b == u + (x + v)
    ensures multiset(front) == multiset(u + v)
  {
    front, x := a[..|a| - 1], [a[|a| - 1]];
    assert a == front + x;
    assert x[0] in a && x[0] in multiset(b);
    var j :| 0 <= j < |b| && b[j] == x[0];
    u, v := b[..j], b[j + 1..];
    assert b == u + (x + v);
    MultisetMove(front, x, u, v);
  }

  lemma MultisetMove<T>(front: seq<T>, x: seq<T>, u: seq<T>, v: seq<T>)
    requires |x| == 1 && multiset(front + x) == multiset(u + (x + v))
    ensures multiset(front) == multiset(u + v)
  {
    assert multiset(front + x) == multiset(front) + multiset(x);
    assert multiset(u + (x + v)) == multiset(u + v) + multiset(x);
    assert multiset(front) == multiset(front + x) - multiset(x);
  }

  /** Parse each element, dropping those that do not parse. */
  function Collect<A, B>(f: A -> Option<B>, s: seq<A>): (r: seq<B>)
  {
    if s == [] then []
    else
      var rest := Collect(f, s[..|s| - 1]);
      match f(s[|s| - 1])
      case Some(y) => rest + [y]
      case None => rest
  }

  lemma {:induction false} CollectMember<A, B>(f: A -> Option<B>, s: seq<A>, y: B)
    ensures y in Collect(f, s) <==> exists x :: x in s && f(x) == Some(y)
  {
    if s != [] {
      var front, x := s[..|s| - 1], s[|s| - 1];
      assert s == front + [x];
      CollectMember(f, front, y);
      if f(x) == Some(y) {
        assert x in s;
      }
    }
  }

  lemma {:induction false} CollectConcat<A, B>(f: A -> Option<B>, a: seq<A>, b: seq<A>)
    ensures Collect(f, a + b) == Collect(f, a) + Collect(f, b)
  {
    if b == [] {
      assert a + b == a;
    } else {
      CollectConcat(f, a, b[..|b| - 1]);
      assert (a + b)[..|a + b| - 1] == a + b[..|b| - 1];
    }
  }

  lemma {:induction false} CollectPermutes<A, B>(f: A -> Option<B>, a: seq<A>, b: seq<A>)
    requires multiset(a) == multiset(b)
    ensures multiset(Collect(f, a)) == multiset(Collect(f, b))
    decreases |a|
  {
    if a == [] {
      assert |multiset(b)| == |b|;
    } else {
      var front, x, u, v := RemoveLast(a, b);
      CollectPermutes(f, front, u + v);
      CollectConcat(f, front, x);
      CollectConcat(f, u, v);
      CollectConcat(f, u, x + v);
      CollectConcat(f, x, v);
      MultisetRegroup(Collect(f, front), Collect(f, x), Collect(f, u), Collect(f, v));
    }
  }

  lemma MultisetRegroup<T>(front: seq<T>, x: seq<T>, u: seq<T>, v: seq<T>)
    requires multiset(front) == multiset(u + v)
    ensures multiset(front + x) == multiset(u + (x + v))
  {
  }

  lemma {:induction false} FilterPermutes<T>(p: T -> bool, a: seq<T>, b: seq<T>)
    requires multiset(a) == multiset(b)
    ensures multiset(Filter(p, a)) == multiset(Filter(p, b))
    decreases |a|
  {
    if a == [] {
      assert |multiset(b)| == |b|;
    } else {
      var front, x, u, v := RemoveLast(a, b);
      FilterPermutes(p, front, u + v);
      FilterConcat(p, front, x);
      FilterConcat(p, u, v);
      FilterConcat(p, u, x + v);
      FilterConcat(p, x, v);
      MultisetRegroup(Filter(p, front), Filter(p, x), Filter(p, u), Filter(p, v));
    }
  }

  function Map<T, U>(f: T -> U, s: seq<T>): (r: seq<U>)
    ensures |r| == |s| && forall i :: 0 <= i < |s| ==> r[i] == f(s[i])
  {
    seq(|s|, i requires 0 <= i < |s| => f(s[i]))
  }

  /** Distinct values, each kept where it first appears. */
  function Unique<T(==)>(s: seq<T>): (r: seq<T>)
  {
    if s == [] then []
    else
      var rest := Unique(s[..|s| - 1]);
      if s[|s| - 1] in rest then rest else rest + [s[|s| - 1]]
  }

  ghost predicate NoDup<T>(s: seq<T>)
  {
    forall i, j :: 0 <= i < j < |s| ==> s[i] != s[j]
  }

  lemma {:induction false} UniqueMembers<T>(s: seq<T>)
    ensures NoDup(Unique(s))
    ensures forall x :: x in Unique(s) <==> x in s
    ensures Unique(s) == [] <==> s == []
  {
    if s != [] {
      UniqueMembers(s[..|s| - 1]);
      assert s == s[..|s| - 1] + [s[|s| - 1]];
    }
  }

  function Members<T>(s: seq<T>): set<T>
  {
    set x | x in s
  }

  lemma MembersStep<T>(front: seq<T>, x: T)
    ensures Members(front + [x]) == Members(front) + {x}
  {
  }

  lemma {:induction false} NoDupCardinality<T>(s: seq<T>)
    requires NoDup(s)
    ensures |Members(s)| == |s|
  {
    if s != [] {
      var front, last := s[..|s| - 1], s[|s| - 1];
      assert s == front + [last];
      NoDupCardinality(front);
      MembersStep(front, last);
      assert last !in Members(front);
    }
  }

  lemma PermutationMembers<T>(a: seq<T>, b: seq<T>)
    requires multiset(a) == multiset(b)
    ensures |a| == |b|
    ensures forall x :: x in a <==> x in b
  {
    assert |multiset(a)| == |a| && |multiset(b)| == |b|;
    forall x
      ensures x in a <==> x in b
    {
      assert x in a <==> x in multiset(a);
    }
  }

  lemma Partner<T>(a: seq<T>, b: seq<T>, i: nat) returns (j: nat)
    requires multiset(a) == multiset(b) && i < |a|
    ensures j < |b| && b[j] == a[i]
  {
    assert a[i] in multiset(a);
    assert a[i] in b;
    j :| 0 <= j < |b| && b[j] == a[i];
  }

  /** Taking out of `b` an element with the `f`-value of the last of `a`. */
  lemma TakePartner<A, B>(f: A -> B, a: seq<A>, b: seq<A>) returns (u: seq<A>, y: A, v: seq<A>)
    requires a != [] && multiset(Map(f, a)) == multiset(Map(f, b))
    ensures b == u + ([y] + v) && f(y) == f(a[|a| - 1])
    ensures multiset(Map(f, a[..|a| - 1])) == multiset(Map(f, u + v))
  {
    var front, x := a[..|a| - 1], a[|a| - 1];
    var j := Partner(Map(f, a), Map(f, b), |a| - 1);
    u, y, v := b[..j], b[j], b[j + 1..];
    assert a == front + [x] && b == u + ([y] + v);
    MapSplit(f, front, x, u, y, v);
    MultisetMove(Map(f, front), [f(x)], Map(f, u), Map(f, v));
  }

  /** Two maps that tell the same elements apart tell the same rearrangements apart. */
  lemma {:induction false} MapTransfer<A, B, C>(f: A -> B, g: A -> C, a: seq<A>, b: seq<A>)
    requires forall x, y :: x in a && y in b && f(x) == f(y) ==> g(x) == g(y)
    requires multiset(Map(f, a)) == multiset(Map(f, b))
    ensures multiset(Map(g, a)) == multiset(Map(g, b))
    decreases |a|
  {
    PermutationMembers(Map(f, a), Map(f, b));
    if a != [] {
      var front, x := a[..|a| - 1], a[|a| - 1];
      var u, y, v := TakePartner(f, a, b);
      assert a == front + [x];
      assert x in a && y in b;
      MapTransfer(f, g, front, u + v);
      MapSplit(g, front, x, u, y, v);
      MultisetRegroup(Map(g, front), [g(x)], Map(g, u), Map(g, v));
    }
  }

  lemma MapSplit<A, B>(f: A -> B, front: seq<A>, x: A, u: seq<A>, y: A, v: seq<A>)
    ensures Map(f, front + [x]) == Map(f, front) + [f(x)]
    ensures Map(f, u + ([y] + v)) == Map(f, u) + ([f(y)] + Map(f, v))
    ensures Map(f, u + v) == Map(f, u) + Map(f, v)
  {
  }

  lemma MapPermutes<A, B>(f: A -> B, a: seq<A>, b: seq<A>)
    requires multiset(a) == multiset(b)
    ensures multiset(Map(f, a)) == multiset(Map(f, b))
  {
    var same := (x: A) => x;
    assert Map(same, a) == a && Map(same, b) == b;
    MapTransfer(same, f, a, b);
  }

  lemma {:induction false} NoDupCount<T>(s: seq<T>, x: T)
    requires NoDup(s)
    ensures multiset(s)[x] == if x in s then 1 else 0
  {
    if s != [] {
      var front, last := s[..|s| - 1], s[|s| - 1];
      assert s == front + [last];
      NoDupCount(front, x);
    }
  }

  lemma SameMembersPermute<T>(a: seq<T>, b: seq<T>)
    requires NoDup(a) && NoDup(b) && forall x :: x in a <==> x in b
    ensures multiset(a) == multiset(b)
  {
    forall x
      ensures multiset(a)[x] == multiset(b)[x]
    {
      NoDupCount(a, x);
      NoDupCount(b, x);
    }
  }

  /** Values attached to equal keys: rearranging the keys rearranges the values. */
  lemma AttachedPermute<K, V>(a: seq<K>, u: seq<V>, b: seq<K>, v: seq<V>)
    requires |a| == |u| && |b| == |v| && multiset(a) == multiset(b)
    requires forall i, j :: 0 <= i < |a| && 0 <= j < |b| && a[i] == b[j] ==> u[i] == v[j]
    ensures multiset(u) == multiset(v)
  {
    var p, q := seq(|a|, i requires 0 <= i < |a| => (a[i], u[i])), seq(|b|, i requires 0 <= i < |b| => (b[i], v[i]));
    var key, value := (x: (K, V)) => x.0, (x: (K, V)) => x.1;
    assert Map(key, p) == a && Map(key, q) == b;
    assert Map(value, p) == u && Map(value, q) == v;
    MapTransfer(key, value, p, q);
  }

  // ---- Rows of checks --------------------------------------------------------

  /** Some check of the row strikes with label `l`. */
  predicate Raised<L(==)>(checks: seq<(bool, L)>, l: L)
  {
    (true, l) in checks
  }

  /** A label that stands in the row once is raised exactly if its check strikes. */
  lemma RaisedOnce<L(!new)>(checks: seq<(bool, L)>, k: nat)
    requires k < |checks| && forall j :: 0 <= j < |checks| && j != k ==> checks[j].1 != checks[k].1
    ensures Raised(checks, checks[k].1) <==> checks[k].0
  {
    assert checks[k] == (checks[k].0, checks[k].1) && checks[k] in checks;
    if Raised(checks, checks[k].1) {
      var j :| 0 <= j < |checks| && checks[j] == (true, checks[k].1);
    }
  }

  /** A row of checks, each pushing its label when it strikes: `if (b) labels.push(l)`
      for each pair in turn. */
  method Raise<L(==)>(checks: seq<(bool, L)>) returns (labels: seq<L>)
    ensures forall l :: l in labels <==> Raised(checks, l)
  {
    labels := [];
    for i := 0 to |checks|
      invariant forall l :: l in labels <==> (true, l) in checks[..i]
    {
      if checks[i].0 {
        labels := labels + [checks[i].1];
      }
      assert checks[..i + 1] == checks[..i] + [checks[i]];
    }
    assert checks[..|checks|] == checks;
  }

  /** Every check that strikes has a label of the kind `p`. */
  ghost predicate Strikes<L>(checks: seq<(bool, L)>, p: L -> bool)
  {
    forall k :: 0 <= k < |checks| && checks[k].0 ==> p(checks[k].1)
  }

  lemma StrikesMeans<L(!new)>(checks: seq<(bool, L)>, p: L -> bool)
    ensures Strikes(checks, p) <==> forall l :: Raised(checks, l) ==> p(l)
  {
    if forall l :: Raised(checks, l) ==> p(l) {
      forall k | 0 <= k < |checks| && checks[k].0
        ensures p(checks[k].1)
      {
        assert checks[k] in checks && checks[k] == (true, checks[k].1);
        assert Raised(checks, checks[k].1);
      }
    }
  }

  /** No check strikes. */
  ghost predicate Clear<L>(checks: seq<(bool, L)>)
  {
    forall k :: 0 <= k < |checks| ==> !checks[k].0
  }

  lemma ClearMeans<L(!new)>(checks: seq<(bool, L)>)
    ensures Clear(checks) <==> forall l :: !Raised(checks, l)
  {
    StrikesMeans(checks, (_: L) => false);
  }

  lemma MapMember<A, B>(f: A -> B, s: seq<A>, y: B)
    ensures y in Map(f, s) <==> exists x :: x in s && f(x) == y
  {
    if y in Map(f, s) {
      var i :| 0 <= i < |s| && Map(f, s)[i] == y;
      assert s[i] in s;
    }
    if x :| x in s && f(x) == y {
      var i :| 0 <= i < |s| && s[i] == x;
      assert Map(f, s)[i] == y;
    }
  }
}
