/** The selection loop used for every "latest per lane" pick: walk the list and let
    a later element replace the one held only when it is preferred. The outcome is
    related to the preference itself, and to every other order of the same list. */
module PreferenceFold {
  import opened Collections

  function Keep<V>(prefer: (V, V) -> bool, held: Option<V>, x: V): (r: V)
    ensures r == x || held == Some(r)
  {
    if held.None? || prefer(x, held.value) then x else held.value
  }

  function Fold<V>(prefer: (V, V) -> bool, s: seq<V>): (r: Option<V>)
    ensures r.None? <==> s == []
    ensures r.Some? ==> r.value in s
  {
    if s == [] then None else Some(Keep(prefer, Fold(prefer, s[..|s| - 1]), s[|s| - 1]))
  }

  lemma FoldStep<V>(prefer: (V, V) -> bool, front: seq<V>, x: V)
    ensures Fold(prefer, front + [x]) == Some(Keep(prefer, Fold(prefer, front), x))
  {
  }

  /** `outranks` is a coarser order that the preference never goes against. */
  ghost predicate Coarsens<V(!new)>(outranks: (V, V) -> bool, prefer: (V, V) -> bool)
  {
    && (forall a, b :: outranks(a, b) ==> prefer(a, b))
    && (forall a, b :: prefer(a, b) ==> !outranks(b, a))
    && (forall a, b, c :: !outranks(a, b) && !outranks(b, c) ==> !outranks(a, c))
    && (forall a :: !outranks(a, a))
  }

  /** The winner is outranked by nothing, even where the preference itself is not
      transitive. */
  lemma {:induction false} WinnerNotOutranked<V(!new)>(outranks: (V, V) -> bool, prefer: (V, V) -> bool, s: seq<V>)
    requires Coarsens(outranks, prefer)
    ensures forall x :: x in s ==> !outranks(x, Fold(prefer, s).value)
  {
    if s != [] {
      var front, x := s[..|s| - 1], s[|s| - 1];
      assert s == front + [x];
      WinnerNotOutranked(outranks, prefer, front);
      var w := Fold(prefer, s).value;
      forall y | y in s
        ensures !outranks(y, w)
      {
        if front != [] {
          var held := Fold(prefer, front).value;
          if w == x && y in front {
            assert !outranks(y, held) && !outranks(held, x);
          } else if y == x && w == held {
            assert outranks(x, held) ==> prefer(x, held);
          }
        }
      }
    }
  }

  /** Asymmetric, and "not preferred" is transitive, among the elements of `s`:
      together, a strict weak order. */
  ghost predicate WeakOrderOn<V(!new)>(prefer: (V, V) -> bool, s: seq<V>)
  {
    && (forall a, b :: a in s && b in s && prefer(a, b) ==> !prefer(b, a))
    && (forall a, b, c :: a in s && b in s && c in s && !prefer(a, b) && !prefer(b, c) ==> !prefer(a, c))
  }

  ghost predicate Undominated<V>(prefer: (V, V) -> bool, s: seq<V>, r: V)
  {
    r in s && forall x :: x in s ==> !prefer(x, r)
  }

  lemma {:induction false} WinnerUndominated<V(!new)>(prefer: (V, V) -> bool, s: seq<V>)
    requires WeakOrderOn(prefer, s) && s != []
    ensures Undominated(prefer, s, Fold(prefer, s).value)
  {
    var front, x := s[..|s| - 1], s[|s| - 1];
    assert s == front + [x];
    if front != [] {
      WinnerUndominated(prefer, front);
      var held := Fold(prefer, front).value;
      forall y | y in s
        ensures !prefer(y, Fold(prefer, s).value)
      {
        assert prefer(y, x) ==> !prefer(x, y);
        assert y in front ==> !prefer(y, held);
      }
    }
  }

  lemma MoveFirst<V>(s: seq<V>, r: V) returns (rest: seq<V>)
    requires r in s
    ensures multiset([r] + rest) == multiset(s)
    ensures forall x :: x in rest ==> x in s
  {
    var i :| 0 <= i < |s| && s[i] == r;
    rest := s[..i] + s[i + 1..];
    assert s == s[..i] + [r] + s[i + 1..];
    assert multiset(s) == multiset(s[..i]) + multiset{r} + multiset(s[i + 1..]);
    assert multiset([r] + rest) == multiset{r} + multiset(s[..i]) + multiset(s[i + 1..]);
  }

  ghost predicate OrderFree<V(!new)>(prefer: (V, V) -> bool, s: seq<V>)
  {
    forall t :: multiset(t) == multiset(s) ==> Fold(prefer, t) == Fold(prefer, s)
  }

  /** Among the elements of `s` the preference never points both ways. */
  ghost predicate AsymmetricOn<V(!new)>(prefer: (V, V) -> bool, s: seq<V>)
  {
    forall a, b :: a in s && b in s && prefer(a, b) ==> !prefer(b, a)
  }

  /** `r` is preferred to every other element. */
  ghost predicate Champion<V(!new)>(prefer: (V, V) -> bool, s: seq<V>, r: V)
  {
    r in s && forall x :: x in s && x != r ==> prefer(r, x)
  }

  lemma {:induction false} ChampionWins<V(!new)>(prefer: (V, V) -> bool, s: seq<V>, r: V)
    requires AsymmetricOn(prefer, s) && Champion(prefer, s, r)
    ensures Fold(prefer, s) == Some(r)
  {
    var front, x := s[..|s| - 1], s[|s| - 1];
    assert s == front + [x];
    if r in front {
      ChampionWins(prefer, front, r);
    }
  }

  /** An element that does not beat `x` is not elected once it comes right after `x`
      and not again. */
  lemma {:induction false} PassedOver<V>(prefer: (V, V) -> bool, x: V, w: V, copies: seq<V>, rest: seq<V>)
    requires x != w && !prefer(w, x)
    requires forall i :: 0 <= i < |copies| ==> copies[i] == w
    requires forall i :: 0 <= i < |rest| ==> rest[i] != w
    ensures Fold(prefer, [x] + copies + rest).Some? && Fold(prefer, [x] + copies + rest).value != w
    ensures rest == [] ==> Fold(prefer, [x] + copies + rest) == Some(x)
    decreases |copies| + |rest|
  {
    var s := [x] + copies + rest;
    if rest != [] {
      PassedOver(prefer, x, w, copies, rest[..|rest| - 1]);
      assert s[..|s| - 1] == [x] + copies + rest[..|rest| - 1] && s[|s| - 1] == rest[|rest| - 1];
    } else if copies != [] {
      PassedOver(prefer, x, w, copies[..|copies| - 1], []);
      assert s[..|s| - 1] == [x] + copies[..|copies| - 1] + [] && s[|s| - 1] == copies[|copies| - 1];
    } else {
      FoldStep(prefer, [], x);
      assert s == [] + [x];
    }
  }

  lemma {:induction false} Partition<V>(p: V -> bool, q: V -> bool, s: seq<V>)
    requires forall x :: x in s ==> p(x) != q(x)
    ensures multiset(Filter(p, s) + Filter(q, s)) == multiset(s)
    decreases |s|
  {
    if s != [] {
      var front, x := s[..|s| - 1], s[|s| - 1];
      assert s == front + [x] && x in s;
      Partition(p, q, front);
      assert multiset(Filter(p, s) + Filter(q, s)) == multiset(Filter(p, s)) + multiset(Filter(q, s));
      assert multiset(Filter(p, front) + Filter(q, front)) == multiset(Filter(p, front)) + multiset(Filter(q, front));
    }
  }

  /** If the winner does not beat `x`, some arrangement elects another: `x` first, then
      every copy of the winner, then the rest. */
  lemma BeatenOnce<V>(prefer: (V, V) -> bool, s: seq<V>, w: V, x: V) returns (t: seq<V>)
    requires x in s && x != w && !prefer(w, x)
    ensures multiset(t) == multiset(s) && Fold(prefer, t) != Some(w)
  {
    var rest := MoveFirst(s, x);
    var isWinner, isOther := (y: V) => y == w, (y: V) => y != w;
    var copies, others := Filter(isWinner, rest), Filter(isOther, rest);
    FilterPasses(isWinner, rest);
    FilterPasses(isOther, rest);
    Partition(isWinner, isOther, rest);
    PassedOver(prefer, x, w, copies, others);
    t := [x] + copies + others;
    assert t == [x] + (copies + others);
    assert multiset(t) == multiset{x} + multiset(copies + others);
    assert multiset([x] + rest) == multiset{x} + multiset(rest);
  }

  /** For any asymmetric preference, transitive or not, the winner is the same for every
      order of the list exactly when one element is preferred to all others. */
  lemma OrderFreeIff<V(!new)>(prefer: (V, V) -> bool, s: seq<V>)
    requires AsymmetricOn(prefer, s) && s != []
    ensures OrderFree(prefer, s) <==> exists r :: Champion(prefer, s, r)
  {
    if r :| Champion(prefer, s, r) {
      ChampionWinsAnywhere(prefer, s, r);
    } else {
      var w := Fold(prefer, s).value;
      assert !Champion(prefer, s, w);
      var x :| x in s && x != w && !prefer(w, x);
      var t := BeatenOnce(prefer, s, w, x);
    }
  }

  lemma ChampionWinsAnywhere<V(!new)>(prefer: (V, V) -> bool, s: seq<V>, r: V)
    requires AsymmetricOn(prefer, s) && Champion(prefer, s, r)
    ensures OrderFree(prefer, s)
  {
    forall t | multiset(t) == multiset(s)
      ensures Fold(prefer, t) == Fold(prefer, s)
    {
      PermutationMembers(s, t);
      ChampionWins(prefer, s, r);
      ChampionWins(prefer, t, r);
    }
  }

  /** Under a strict weak order there is such an element exactly when the undominated
      ones are all equal. */
  lemma ChampionIffUndominatedUnique<V(!new)>(prefer: (V, V) -> bool, s: seq<V>)
    requires WeakOrderOn(prefer, s) && s != []
    ensures (exists r :: Champion(prefer, s, r))
       <==> forall a, b :: Undominated(prefer, s, a) && Undominated(prefer, s, b) ==> a == b
  {
    WinnerUndominated(prefer, s);
    var w := Fold(prefer, s).value;
    if forall a, b :: Undominated(prefer, s, a) && Undominated(prefer, s, b) ==> a == b {
      forall x | x in s && x != w
        ensures prefer(w, x)
      {
        assert !Undominated(prefer, s, x);
        var y :| y in s && prefer(y, x);
        assert !prefer(y, w);
      }
      assert Champion(prefer, s, w);
    }
  }
}
