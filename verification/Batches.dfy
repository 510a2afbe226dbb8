/** Lists worked through in batches. */
module Batches {

  function Members<T>(xs: seq<T>): set<T> {
    set x | x in xs
  }

  predicate AllDifferent<T(==)>(xs: seq<T>) {
    forall i, j :: 0 <= i < j < |xs| ==> xs[i] != xs[j]
  }

  lemma MembersSplit<T>(xs: seq<T>, lo: nat, hi: nat)
    requires lo <= hi <= |xs|
    ensures Members(xs[..hi]) == Members(xs[..lo]) + Members(xs[lo..hi])
    ensures AllDifferent(xs) ==> Members(xs[..lo]) !! Members(xs[lo..hi])
  {
    assert xs[..hi] == xs[..lo] + xs[lo..hi];
  }

  function Min(a: nat, b: nat): nat {
    if a < b then a else b
  }

  // ----- rearranged, what is different stays different -----

  lemma {:induction false} OnceEach<T>(xs: seq<T>)
    requires AllDifferent(xs)
    ensures forall x :: multiset(xs)[x] <= 1
  {
    if xs != [] {
      var n := |xs| - 1;
      OnceEach(xs[..n]);
      assert xs == xs[..n] + [xs[n]];
      assert xs[n] !in xs[..n];
    }
  }

  lemma DifferentIfOnce<T>(xs: seq<T>)
    requires forall x :: multiset(xs)[x] <= 1
    ensures AllDifferent(xs)
  {
    forall i, j | 0 <= i < j < |xs| ensures xs[i] != xs[j] {
      var front, back := xs[..j], xs[j..];
      assert xs == front + back && front[i] == xs[i] && back[0] == xs[j];
      assert multiset(front)[xs[i]] >= 1 && multiset(back)[xs[j]] >= 1;
      assert multiset(xs)[xs[i]] == multiset(front)[xs[i]] + multiset(back)[xs[i]];
    }
  }

  lemma RearrangedStayDifferent<T>(xs: seq<T>, ys: seq<T>)
    requires AllDifferent(xs) && multiset(xs) == multiset(ys)
    ensures AllDifferent(ys)
  {
    OnceEach(xs);
    DifferentIfOnce(ys);
  }
}
