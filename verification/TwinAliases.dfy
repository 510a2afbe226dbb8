/**
 * Twins of catalogue documents. One document may be listed under two ids; an alias maps the id of a
 * twin to the row that survives it, and that row may be a twin in its turn. Edges go to the row at
 * the end of the chain, which is followed for at most four steps.
 */
module TwinAliases {

  datatype Id = Id(name: string)

  type Aliases = map<Id, Id>

  const HOPS: nat := 4
  const NOBODY := Id("")

  function Next(alias: Aliases, id: Id): Id {
    if id in alias then alias[id] else id
  }

  /** The id is a twin of some other row. */
  predicate Aliased(alias: Aliases, id: Id) {
    Next(alias, id) != id
  }

  function Hop(alias: Aliases, id: Id, n: nat): Id {
    if n == 0 then id else Next(alias, Hop(alias, id, n - 1))
  }

  function SurvivorOf(alias: Aliases, id: Id): Id {
    Hop(alias, id, HOPS)
  }

  lemma {:induction false} EndIsStable(alias: Aliases, id: Id, n: nat, m: nat)
    requires n <= m && !Aliased(alias, Hop(alias, id, n))
    ensures Hop(alias, id, m) == Hop(alias, id, n)
    decreases m
  {
    if n < m { EndIsStable(alias, id, n, m - 1); }
  }

  /** Every chain of twins comes to an end after at most four steps. */
  ghost predicate ShortChains(alias: Aliases) {
    forall id :: EndsInTime(alias, id)
  }

  ghost predicate EndsInTime(alias: Aliases, id: Id) {
    exists n: nat :: n <= 4 && !Aliased(alias, Hop(alias, id, n))
  }

  /**
   * The row found is no twin itself exactly when the chain ends in time, and then it is the end of
   * the chain, whatever its length.
   */
  lemma SurvivorIsEnd(alias: Aliases, id: Id)
    ensures !Aliased(alias, SurvivorOf(alias, id)) <==> EndsInTime(alias, id)
    ensures forall n: nat :: n <= 4 && !Aliased(alias, Hop(alias, id, n)) ==>
                               SurvivorOf(alias, id) == Hop(alias, id, n)
  {
    forall n: nat | n <= 4 && !Aliased(alias, Hop(alias, id, n))
      ensures SurvivorOf(alias, id) == Hop(alias, id, n)
    {
      EndIsStable(alias, id, n, HOPS);
    }
  }

  /** A chain of five twins is too long: the row found is a twin itself. */
  lemma FiveTwinsAreTooMany() returns (alias: Aliases, id: Id)
    ensures alias.Keys == {Id("a"), Id("b"), Id("c"), Id("d"), Id("e")}
    ensures !Aliased(alias, Hop(alias, id, 5))
    ensures Aliased(alias, SurvivorOf(alias, id))
  {
    var a, b, c, d, e, f := Id("a"), Id("b"), Id("c"), Id("d"), Id("e"), Id("f");
    alias := map[a := b, b := c, c := d, d := e, e := f];
    id := a;
    assert Hop(alias, a, 1) == b && Hop(alias, a, 2) == c;
    assert Hop(alias, a, 3) == d && Hop(alias, a, 4) == e && Hop(alias, a, 5) == f;
  }

  /** Two twins of each other have no end at all. */
  lemma ALoopNeverEnds(a: Id, b: Id, n: nat)
    requires a != b
    ensures Aliased(map[a := b, b := a], Hop(map[a := b, b := a], a, n))
  {
    var alias := map[a := b, b := a];
    LoopStaysInside(a, b, n);
  }

  lemma {:induction false} LoopStaysInside(a: Id, b: Id, n: nat)
    requires a != b
    ensures Hop(map[a := b, b := a], a, n) in {a, b}
  {
    if n > 0 { LoopStaysInside(a, b, n - 1); }
  }

  method Survivor(alias: Aliases, id: Id) returns (s: Id)
    ensures s == SurvivorOf(alias, id)
  {
    s := id;
    var hop := 0;
    while hop < HOPS
      invariant hop <= HOPS && s == Hop(alias, id, hop)
    {
      if s !in alias || alias[s] == s {
        EndIsStable(alias, id, hop, HOPS);
        return;
      }
      s := alias[s];
      hop := hop + 1;
    }
  }

  // ----- pruning: rows absent from the import go, but never the survivor of an imported twin -----

  /** Where the pruner's own walk stands after n steps; it falls off the end of a chain. */
  function Walk(alias: Aliases, id: Id, n: nat): Id {
    if n == 0 then id
    else
      var s := Walk(alias, id, n - 1);
      if s in alias then alias[s] else NOBODY
  }

  /** The walk from a twin passes id within its four steps, without having fallen off before. */
  predicate Passes(alias: Aliases, twin: Id, id: Id) {
    twin in alias && exists n: nat :: 1 <= n <= 4 && Arrives(alias, twin, n) && Walk(alias, twin, n) == id
  }

  predicate Arrives(alias: Aliases, twin: Id, n: nat) {
    n == 0 || (Walk(alias, twin, n) != NOBODY && Arrives(alias, twin, n - 1))
  }

  predicate Survives(ids: set<Id>, alias: Aliases, id: Id) {
    exists twin :: twin in alias && twin in ids && Passes(alias, twin, id)
  }

  /** As long as the chain goes on, the walk and the survivor search are at the same row. */
  lemma {:induction false} WalkFollowsChain(alias: Aliases, id: Id, n: nat)
    requires forall k: nat :: k < n ==> Hop(alias, id, k) in alias
    requires NOBODY !in alias && NOBODY !in alias.Values
    requires n > 0
    ensures Walk(alias, id, n) == Hop(alias, id, n) && Arrives(alias, id, n)
  {
    if n == 1 {
      assert Walk(alias, id, 0) == id && Hop(alias, id, 0) == id;
      assert Arrives(alias, id, 0);
    } else {
      WalkFollowsChain(alias, id, n - 1);
    }
    assert Hop(alias, id, n - 1) in alias;
    assert alias[Hop(alias, id, n - 1)] in alias.Values;
  }

  lemma SurvivorIsPassed(alias: Aliases, id: Id)
    requires NOBODY !in alias && NOBODY !in alias.Values
    requires id in alias
    ensures Passes(alias, id, SurvivorOf(alias, id))
  {
    var n := LastStep(alias, id, HOPS);
    WalkFollowsChain(alias, id, n);
  }

  lemma {:induction false} LastStep(alias: Aliases, id: Id, m: nat) returns (n: nat)
    requires id in alias && m > 0
    ensures 1 <= n <= m && Hop(alias, id, n) == Hop(alias, id, m)
    ensures forall k: nat :: k < n ==> Hop(alias, id, k) in alias
    decreases m
  {
    if m == 1 {
      n := 1;
      assert Hop(alias, id, 0) == id;
    } else {
      n := LastStep(alias, id, m - 1);
      if Hop(alias, id, m - 1) in alias {
        n := m;
        AliasedAllAlong(alias, id, m - 1);
      }
    }
  }

  lemma {:induction false} AliasedAllAlong(alias: Aliases, id: Id, m: nat)
    requires Hop(alias, id, m) in alias
    ensures forall k: nat :: k <= m ==> Hop(alias, id, k) in alias
  {
    if m > 0 { AliasedAllAlong(alias, id, m - 1); }
  }

  function Gone(existing: seq<Id>, ids: set<Id>, alias: Aliases, reviewed: set<Id>): (gone: seq<Id>)
    ensures forall id :: id in gone <==>
                           id in existing && id !in ids && id !in reviewed && !Survives(ids, alias, id)
  {
    if existing == [] then []
    else
      var n := |existing| - 1;
      var id := existing[n];
      Gone(existing[..n], ids, alias, reviewed)
      + if id !in ids && !Survives(ids, alias, id) && id !in reviewed then [id] else []
  }

  /** No row that took over an imported twin is pruned, nor an imported or reviewed one. */
  lemma SurvivorIsNeverPruned(existing: seq<Id>, ids: set<Id>, alias: Aliases, reviewed: set<Id>, twin: Id)
    requires NOBODY !in alias && NOBODY !in alias.Values
    requires twin in ids
    ensures SurvivorOf(alias, twin) !in Gone(existing, ids, alias, reviewed)
  {
    if twin in alias {
      SurvivorIsPassed(alias, twin);
    } else {
      assert Hop(alias, twin, 0) == twin;
      EndIsStable(alias, twin, 0, HOPS);
    }
  }

  /** Exactly the rows that are neither imported nor reviewed nor passed on the way from an imported twin. */
  lemma {:induction false} GoneIsExact(existing: seq<Id>, ids: set<Id>, alias: Aliases, reviewed: set<Id>, id: Id)
    ensures id in Gone(existing, ids, alias, reviewed) <==>
              id in existing && id !in ids && id !in reviewed
              && !exists twin :: twin in alias && twin in ids && Passes(alias, twin, id)
  {
    if existing != [] {
      var n := |existing| - 1;
      GoneIsExact(existing[..n], ids, alias, reviewed, id);
      assert existing == existing[..n] + [existing[n]];
    }
  }

  /** The survivors of one twin, gathered by walking its chain. */
  method WalkChain(ids: set<Id>, alias: Aliases, twin: Id) returns (passed: set<Id>)
    requires twin in alias
    ensures forall id :: id in passed <==> twin in ids && Passes(alias, twin, id)
  {
    passed := {};
    var s := alias[twin];
    var hop := 0;
    assert Walk(alias, twin, 0) == twin;
    while twin in ids && hop < HOPS && s != NOBODY
      invariant hop <= HOPS
      invariant hop > 0 ==> twin in ids
      invariant s == Walk(alias, twin, hop + 1)
      invariant Arrives(alias, twin, hop)
      invariant forall id :: id in passed <==>
                  exists n: nat :: 1 <= n <= hop && Arrives(alias, twin, n) && Walk(alias, twin, n) == id
    {
      passed := passed + {s};
      s := if s in alias then alias[s] else NOBODY;
      hop := hop + 1;
    }
    if hop < HOPS && twin in ids { FellOff(alias, twin, hop + 1); }
  }

  lemma {:induction false} FellOff(alias: Aliases, twin: Id, n: nat)
    requires n > 0 && Walk(alias, twin, n) == NOBODY
    ensures forall m: nat :: m >= n ==> !Arrives(alias, twin, m)
  {
    forall m: nat | m >= n ensures !Arrives(alias, twin, m) {
      NoFarther(alias, twin, n, m);
    }
  }

  lemma {:induction false} NoFarther(alias: Aliases, twin: Id, n: nat, m: nat)
    requires 0 < n <= m && Walk(alias, twin, n) == NOBODY
    ensures !Arrives(alias, twin, m)
    decreases m
  {
    if n < m { NoFarther(alias, twin, n, m - 1); }
  }

  method PruneCandidates(existing: seq<Id>, ids: set<Id>, alias: Aliases, reviewed: set<Id>)
    returns (gone: seq<Id>)
    ensures gone == Gone(existing, ids, alias, reviewed)
  {
    var survivors: set<Id> := {};
    var todo := alias.Keys;
    while todo != {}
      invariant todo <= alias.Keys
      invariant forall id :: id in survivors <==>
                  exists twin :: twin in alias.Keys - todo && twin in ids && Passes(alias, twin, id)
      decreases |todo|
    {
      var twin :| twin in todo;
      var passed := WalkChain(ids, alias, twin);
      survivors := survivors + passed;
      todo := todo - {twin};
    }
    gone := [];
    var i := 0;
    while i < |existing|
      invariant i <= |existing|
      invariant gone == Gone(existing[..i], ids, alias, reviewed)
    {
      assert existing[..i + 1][..i] == existing[..i];
      var id := existing[i];
      assert id in survivors <==> Survives(ids, alias, id);
      if id !in ids && id !in survivors && id !in reviewed { gone := gone + [id]; }
      i := i + 1;
    }
    assert existing[..i] == existing;
  }
}
