/**
 * Merging the edges of an import into the stored relations, in batches and in one transaction.
 */
module RelationMerge {
  import opened Batches
  import opened Options
  import opened Relations
  import opened TwinAliases

  function Without(t: Table, ids: set<Id>): Table {
    map k | k in t && !Touches(k, ids) :: t[k]
  }

  function Stored(t: Table, k: Key): Option<string> {
    if k in t then Some(t[k]) else None
  }

  // ----- what a merge does, key by key -----

  /** A stored edge that ends at a twin outside the import, at no imported document, and moves to k. */
  predicate MovesTo(t: Table, ids: set<Id>, alias: Aliases, was: Key, k: Key) {
    && was in t
    && !Touches(was, ids) && Touches(was, alias.Keys - ids)
    && Repoint(alias, was) == k && k.from != k.to
  }

  ghost predicate SomeMovesTo(t: Table, ids: set<Id>, alias: Aliases, k: Key) {
    exists was :: MovesTo(t, ids, alias, was, k)
  }

  predicate Untouched(t: Table, ids: set<Id>, alias: Aliases, k: Key) {
    k in t && !Touches(k, ids) && !Touches(k, alias.Keys - ids)
  }

  /** What may be stored at k afterwards: an old edge left alone, else a new one, else a moved one. */
  ghost predicate Outcome(t: Table, ids: set<Id>, alias: Aliases, rels: seq<Edge>, k: Key, now: Option<string>) {
    if Untouched(t, ids, alias, k) then now == Some(t[k])
    else if Listed(rels, k) then now == Source(rels, k)
    else if SomeMovesTo(t, ids, alias, k) then
      now.Some? && exists was :: MovesTo(t, ids, alias, was, k) && t[was] == now.value
    else now == None
  }

  ghost predicate IsMerge(t: Table, ids: set<Id>, alias: Aliases, rels: seq<Edge>, after: Table) {
    forall k :: Outcome(t, ids, alias, rels, k, Stored(after, k))
  }

  // ----- the pieces of the computation -----

  /** Each stored edge that touches some of the ids is listed once, in any order, and no other. */
  ghost predicate Lists(edges: seq<Edge>, t: Table, ids: set<Id>) {
    && Distinct(edges)
    && forall k :: Source(edges, k) == if k in t && Touches(k, ids) then Some(t[k]) else None
  }

  function Shifted(alias: Aliases, edges: seq<Edge>): seq<Edge> {
    if edges == [] then []
    else
      var e := edges[|edges| - 1];
      var k := Repoint(alias, e.key);
      var shifted := Shifted(alias, edges[..|edges| - 1]);
      if k.from == k.to then shifted else shifted + [Edge(k, e.source)]
  }

  function Inserted(t: Table, edges: seq<Edge>): Table {
    if edges == [] then t
    else
      var before := Inserted(t, edges[..|edges| - 1]);
      var e := edges[|edges| - 1];
      if e.key in before then before else before[e.key := e.source]
  }

  lemma {:induction false} InsertedFillsGaps(t: Table, edges: seq<Edge>, k: Key)
    ensures Stored(Inserted(t, edges), k) == if k in t then Some(t[k]) else Source(edges, k)
  {
    if edges != [] {
      var n := |edges| - 1;
      InsertedFillsGaps(t, edges[..n], k);
    }
  }

  lemma {:induction false} InsertedConcat(t: Table, a: seq<Edge>, b: seq<Edge>)
    ensures Inserted(Inserted(t, a), b) == Inserted(t, a + b)
    decreases |b|
  {
    if b == [] {
      assert a + b == a;
    } else {
      var n := |b| - 1;
      assert (a + b)[..|a + b| - 1] == a + b[..n];
      InsertedConcat(t, a, b[..n]);
    }
  }

  predicate ShiftsTo(alias: Aliases, e: Edge, moved: Edge) {
    Repoint(alias, e.key) == moved.key && moved.key.from != moved.key.to && e.source == moved.source
  }

  lemma {:induction false} ShiftedIsExact(alias: Aliases, edges: seq<Edge>)
    ensures forall m :: m in Shifted(alias, edges) <==> exists e :: e in edges && ShiftsTo(alias, e, m)
  {
    if edges != [] {
      var init, e := edges[..|edges| - 1], edges[|edges| - 1];
      ShiftedIsExact(alias, init);
      assert edges == init + [e];
      forall m | m in Shifted(alias, edges)
        ensures exists f :: f in edges && ShiftsTo(alias, f, m)
      {
        if m in Shifted(alias, init) {
          var f :| f in init && ShiftsTo(alias, f, m);
          assert f in edges;
        } else {
          assert e in edges && ShiftsTo(alias, e, m);
        }
      }
    }
  }

  lemma {:induction false} DistinctSource(edges: seq<Edge>, i: nat)
    requires Distinct(edges) && i < |edges|
    ensures Source(edges, edges[i].key) == Some(edges[i].source)
  {
    MemberIsListed(edges, i);
    var j := SourceIsFirst(edges, edges[i].key);
  }

  lemma ListedIsStored(t: Table, ids: set<Id>, alias: Aliases, moved: seq<Edge>, e: Edge)
    requires Lists(moved, Without(t, ids), alias.Keys - ids)
    requires e in moved
    ensures e.key in t && t[e.key] == e.source
    ensures !Touches(e.key, ids) && Touches(e.key, alias.Keys - ids)
  {
    var i :| 0 <= i < |moved| && moved[i] == e;
    DistinctSource(moved, i);
  }

  lemma ShiftedIsMoved(t: Table, ids: set<Id>, alias: Aliases, moved: seq<Edge>, k: Key) returns (was: Key)
    requires Lists(moved, Without(t, ids), alias.Keys - ids)
    requires Listed(Shifted(alias, moved), k)
    ensures MovesTo(t, ids, alias, was, k) && Some(t[was]) == Source(Shifted(alias, moved), k)
  {
    var shifted := Shifted(alias, moved);
    ShiftedIsExact(alias, moved);
    var i := SourceIsFirst(shifted, k);
    assert shifted[i] in shifted;
    var e :| e in moved && ShiftsTo(alias, e, shifted[i]);
    ListedIsStored(t, ids, alias, moved, e);
    was := e.key;
  }

  lemma MovedIsShifted(t: Table, ids: set<Id>, alias: Aliases, moved: seq<Edge>, was: Key, k: Key)
    requires Lists(moved, Without(t, ids), alias.Keys - ids)
    requires MovesTo(t, ids, alias, was, k)
    ensures Listed(Shifted(alias, moved), k)
  {
    var shifted := Shifted(alias, moved);
    ShiftedIsExact(alias, moved);
    var m := Edge(k, t[was]);
    var i := SourceIsFirst(moved, was);
    assert moved[i] in moved && ShiftsTo(alias, moved[i], m);
    assert m in shifted;
    var j :| 0 <= j < |shifted| && shifted[j] == m;
    MemberIsListed(shifted, j);
  }

  /** Merging what was moved, key by key. */
  lemma MovedSources(t: Table, ids: set<Id>, alias: Aliases, moved: seq<Edge>, k: Key)
    requires Lists(moved, Without(t, ids), alias.Keys - ids)
    ensures Source(Firsts(Shifted(alias, moved)), k).Some? <==> SomeMovesTo(t, ids, alias, k)
    ensures Source(Firsts(Shifted(alias, moved)), k).Some? ==>
              exists was :: MovesTo(t, ids, alias, was, k)
                            && t[was] == Source(Firsts(Shifted(alias, moved)), k).value
  {
    FirstsKeepSources(Shifted(alias, moved), k);
    if Listed(Shifted(alias, moved), k) {
      var was := ShiftedIsMoved(t, ids, alias, moved, k);
    }
    forall was | MovesTo(t, ids, alias, was, k) ensures Listed(Shifted(alias, moved), k) {
      MovedIsShifted(t, ids, alias, moved, was, k);
    }
  }

  lemma ComputedIsMerge(t: Table, ids: set<Id>, alias: Aliases, rels: seq<Edge>, moved: seq<Edge>)
    requires Lists(moved, Without(t, ids), alias.Keys - ids)
    ensures IsMerge(t, ids, alias, rels,
                    Inserted(Without(Without(t, ids), alias.Keys - ids), rels + Firsts(Shifted(alias, moved))))
  {
    var left := Without(Without(t, ids), alias.Keys - ids);
    var extra := Firsts(Shifted(alias, moved));
    var after := Inserted(left, rels + extra);
    forall k ensures Outcome(t, ids, alias, rels, k, Stored(after, k)) {
      InsertedFillsGaps(left, rels + extra, k);
      SourceOfConcat(rels, extra, k);
      MovedSources(t, ids, alias, moved, k);
    }
  }

  // ----- the transaction -----

  /** The keys of a Go map, in whatever order they come. */
  method Enumerate(ids: set<Id>) returns (all: seq<Id>)
    ensures Members(all) == ids
  {
    all := [];
    var todo := ids;
    while todo != {}
      invariant todo <= ids && forall id :: id in all <==> id in ids && id !in todo
      decreases |todo|
    {
      var id :| id in todo;
      all := all + [id];
      todo := todo - {id};
    }
  }

  lemma ListsOneMore(t: Table, ids: set<Id>, found: seq<Edge>, done: set<Key>, k: Key)
    requires k in t && k !in done
    requires Lists(found, OnlyKeys(t, done), ids)
    ensures Lists(if Touches(k, ids) then found + [Edge(k, t[k])] else found, OnlyKeys(t, done + {k}), ids)
  {
    var after := if Touches(k, ids) then found + [Edge(k, t[k])] else found;
    forall i | 0 <= i < |found| ensures found[i].key != k {
      DistinctSource(found, i);
    }
    forall other
      ensures Source(after, other)
           == if other in OnlyKeys(t, done + {k}) && Touches(other, ids) then Some(t[other]) else None
    {
      assert Source(found, other) == if other in OnlyKeys(t, done) && Touches(other, ids) then Some(t[other]) else None;
      assert (found + [Edge(k, t[k])])[..|found|] == found;
    }
  }

  function OnlyKeys(t: Table, keys: set<Key>): Table {
    map k | k in t && k in keys :: t[k]
  }

  /** The stored edges that touch a batch, in whatever order the database returns them. */
  method Find(t: Table, ids: set<Id>) returns (found: seq<Edge>)
    ensures Lists(found, t, ids)
  {
    found := [];
    var todo := t.Keys;
    while todo != {}
      invariant todo <= t.Keys
      invariant Lists(found, OnlyKeys(t, t.Keys - todo), ids)
      decreases |todo|
    {
      var k :| k in todo;
      ListsOneMore(t, ids, found, t.Keys - todo, k);
      assert t.Keys - todo + {k} == t.Keys - (todo - {k});
      if Touches(k, ids) { found := found + [Edge(k, t[k])]; }
      todo := todo - {k};
    }
    assert OnlyKeys(t, t.Keys) == t;
  }

  method RepointEdges(alias: Aliases, edges: seq<Edge>) returns (out: seq<Edge>)
    ensures out == Firsts(Shifted(alias, edges))
  {
    out := [];
    var seen: set<Key> := {};
    var i := 0;
    while i < |edges|
      invariant i <= |edges|
      invariant out == Firsts(Shifted(alias, edges[..i]))
      invariant forall k :: k in seen <==> Listed(out, k)
    {
      assert edges[..i + 1][..i] == edges[..i];
      var e := edges[i];
      var from := Survivor(alias, e.key.from);
      var to := Survivor(alias, e.key.to);
      var k := Key(from, to, e.key.relation);
      var shifted := Shifted(alias, edges[..i]);
      assert (shifted + [Edge(k, e.source)])[..|shifted|] == shifted;
      if from != to && k !in seen {
        AppendLists(out, Edge(k, e.source));
        seen := seen + {k};
        out := out + [Edge(k, e.source)];
      }
      i := i + 1;
    }
    assert edges[..i] == edges;
  }

  lemma WithoutTwice(t: Table, a: set<Id>, b: set<Id>)
    ensures Without(Without(t, a), b) == Without(t, a + b)
  {
  }

  /** Edges taken batch by batch: one that touches two batches is taken with the first only. */
  lemma ListsConcat(t: Table, a: set<Id>, b: set<Id>, first: seq<Edge>, second: seq<Edge>)
    requires Lists(first, t, a) && Lists(second, Without(t, a), b)
    ensures Lists(first + second, t, a + b)
  {
    forall k ensures Source(first + second, k) == if k in t && Touches(k, a + b) then Some(t[k]) else None {
      SourceOfConcat(first, second, k);
      assert Source(first, k) == if k in t && Touches(k, a) then Some(t[k]) else None;
    }
    forall i, j | 0 <= i < |first| && 0 <= j < |second| ensures first[i].key != second[j].key {
      DistinctSource(first, i);
      DistinctSource(second, j);
    }
  }

  /** The stored relations. A statement whose number is in `failing` is refused by the database. */
  class RelationStore {
    var table: Table

    constructor (table: Table)
      ensures this.table == table
    {
      this.table := table;
    }

    method Delete(ids: set<Id>)
      modifies this
      ensures table == Without(old(table), ids)
    {
      table := map k | k in table && !Touches(k, ids) :: table[k];
    }

    method DeleteImported(all: seq<Id>, failing: set<nat>) returns (ok: bool, next: nat)
      modifies this
      ensures ok ==> table == Without(old(table), Members(all))
      ensures failing == {} ==> ok
    {
      next := 0;
      ok := true;
      var start := 0;
      while start < |all|
        invariant table == Without(old(table), Members(all[..Min(start, |all|)]))
      {
        if next in failing { return false, next; }
        next := next + 1;
        var end := Min(start + BATCH, |all|);
        MembersSplit(all, start, end);
        WithoutTwice(old(table), Members(all[..start]), Members(all[start..end]));
        Delete(Members(all[start..end]));
        start := start + BATCH;
      }
      assert all[..|all|] == all;
    }

    method TakeTwins(twins: seq<Id>, failing: set<nat>, first: nat) returns (ok: bool, moved: seq<Edge>, next: nat)
      modifies this
      ensures ok ==> table == Without(old(table), Members(twins))
      ensures ok ==> Lists(moved, old(table), Members(twins))
      ensures failing == {} ==> ok
    {
      ok, moved, next := true, [], first;
      var start := 0;
      while start < |twins|
        invariant table == Without(old(table), Members(twins[..Min(start, |twins|)]))
        invariant Lists(moved, old(table), Members(twins[..Min(start, |twins|)]))
      {
        var end := Min(start + BATCH, |twins|);
        var batch := Members(twins[start..end]);
        if next in failing { return false, moved, next; }
        var found := Find(table, batch);
        if next + 1 in failing { return false, moved, next; }
        MembersSplit(twins, start, end);
        WithoutTwice(old(table), Members(twins[..start]), batch);
        ListsConcat(old(table), Members(twins[..start]), batch, moved, found);
        Delete(batch);
        next := next + 2;
        moved := moved + found;
        start := start + BATCH;
      }
      assert twins[..|twins|] == twins;
    }

    /** Rows whose key is taken, in the table or earlier in the list, are passed over. */
    method Insert(edges: seq<Edge>)
      modifies this
      ensures table == Inserted(old(table), edges)
    {
      var i := 0;
      while i < |edges|
        invariant i <= |edges|
        invariant table == Inserted(old(table), edges[..i])
      {
        assert edges[..i + 1][..i] == edges[..i];
        if edges[i].key !in table { table := table[edges[i].key := edges[i].source]; }
        i := i + 1;
      }
      assert edges[..i] == edges;
    }

    method CreateInBatches(edges: seq<Edge>, failing: set<nat>, first: nat) returns (ok: bool)
      modifies this
      ensures ok ==> table == Inserted(old(table), edges)
      ensures failing == {} ==> ok
    {
      var next := first;
      ok := true;
      var start := 0;
      while start < |edges|
        invariant table == Inserted(old(table), edges[..Min(start, |edges|)])
      {
        if next in failing { return false; }
        next := next + 1;
        var end := Min(start + BATCH, |edges|);
        InsertedConcat(old(table), edges[..start], edges[start..end]);
        assert edges[..end] == edges[..start] + edges[start..end];
        Insert(edges[start..end]);
        start := start + BATCH;
      }
      assert edges[..|edges|] == edges;
    }

    /**
     * Replaces the edges of the imported documents by the new ones and moves the edges stored at
     * other twins, all or nothing.
     */
    method MergeRelations(ids: set<Id>, alias: Aliases, rels: seq<Edge>, failing: set<nat>) returns (ok: bool)
      modifies this
      ensures ok ==> IsMerge(old(table), ids, alias, rels, table)
      ensures !ok ==> table == old(table)
      ensures failing == {} ==> ok
    {
      var before := table;
      var all := Enumerate(ids);
      var twins := Enumerate(alias.Keys - ids);
      var next;
      ok, next := DeleteImported(all, failing);
      if !ok {
        table := before;
        return;
      }
      var moved;
      ok, moved, next := TakeTwins(twins, failing, next);
      if !ok {
        table := before;
        return;
      }
      var repointed := RepointEdges(alias, moved);
      ComputedIsMerge(before, ids, alias, rels, moved);
      if |rels + repointed| > 0 {
        ok := CreateInBatches(rels + repointed, failing, next);
        if !ok { table := before; }
      }
    }
  }

  // ----- what a merge guarantees -----

  predicate FreeOfTwins(alias: Aliases, k: Key) {
    !Aliased(alias, k.from) && !Aliased(alias, k.to)
  }

  predicate AllFreeOfTwins(alias: Aliases, t: Table) {
    forall k :: k in t ==> FreeOfTwins(alias, k)
  }

  ghost predicate RelsAreSound(alias: Aliases, rels: seq<Edge>) {
    forall k :: Listed(rels, k) ==> FreeOfTwins(alias, k) && k.from != k.to
  }

  /** The chain of every twin outside the import ends in time. */
  ghost predicate TwinsEndInTime(ids: set<Id>, alias: Aliases) {
    forall twin :: twin in alias && twin !in ids ==> EndsInTime(alias, twin)
  }

  /**
   * Every stored edge is accounted for: left alone with its wording, dropped because it touches an
   * imported document, or moved from a twin, unless both its ends survive as the same row. And an
   * edge is found afterwards only if it was left alone, is new, or was moved.
   */
  lemma EveryEdgeIsAccountedFor(t: Table, ids: set<Id>, alias: Aliases, rels: seq<Edge>, after: Table, k: Key)
    requires IsMerge(t, ids, alias, rels, after)
    ensures k in t ==>
              || (Untouched(t, ids, alias, k) && k in after && after[k] == t[k])
              || Touches(k, ids)
              || Repoint(alias, k) in after
              || SurvivorOf(alias, k.from) == SurvivorOf(alias, k.to)
    ensures Listed(rels, k) ==> k in after
    ensures k in after ==> Untouched(t, ids, alias, k) || Listed(rels, k) || SomeMovesTo(t, ids, alias, k)
  {
    assert Outcome(t, ids, alias, rels, k, Stored(after, k));
    var to := Repoint(alias, k);
    assert Outcome(t, ids, alias, rels, to, Stored(after, to));
    if k in t && !Touches(k, ids) && !Untouched(t, ids, alias, k) && to.from != to.to {
      assert MovesTo(t, ids, alias, k, to);
    }
  }

  /** No edge joins a document to itself, if none did before. */
  lemma NoSelfEdges(t: Table, ids: set<Id>, alias: Aliases, rels: seq<Edge>, after: Table, k: Key)
    requires IsMerge(t, ids, alias, rels, after) && RelsAreSound(alias, rels)
    requires forall was :: was in t ==> was.from != was.to
    requires k in after
    ensures k.from != k.to
  {
    EveryEdgeIsAccountedFor(t, ids, alias, rels, after, k);
  }

  lemma EndsUnlessImported(ids: set<Id>, alias: Aliases, id: Id)
    requires TwinsEndInTime(ids, alias) && id !in ids
    ensures EndsInTime(alias, id)
  {
    if id !in alias {
      assert !Aliased(alias, Hop(alias, id, 0));
    }
  }

  /** A twin's edge that is moved, both ends of it surviving as different rows, has chains that end in time. */
  ghost predicate MovedEndInTime(t: Table, ids: set<Id>, alias: Aliases) {
    forall was, k :: MovesTo(t, ids, alias, was, k) ==> EndsInTime(alias, was.from) && EndsInTime(alias, was.to)
  }

  lemma MovedEndsAreFree(alias: Aliases, was: Key)
    ensures FreeOfTwins(alias, Repoint(alias, was)) <==> EndsInTime(alias, was.from) && EndsInTime(alias, was.to)
  {
    SurvivorIsEnd(alias, was.from);
    SurvivorIsEnd(alias, was.to);
  }

  /**
   * Table by table: a merge leaves no edge at a twin exactly when the chains at both ends of every
   * edge it moves end within four steps.
   */
  lemma MergeLeavesNoTwinIffMovedEndInTime(t: Table, ids: set<Id>, alias: Aliases, rels: seq<Edge>, after: Table)
    requires IsMerge(t, ids, alias, rels, after) && RelsAreSound(alias, rels)
    ensures AllFreeOfTwins(alias, after) <==> MovedEndInTime(t, ids, alias)
  {
    forall was, k | MovesTo(t, ids, alias, was, k)
      ensures k in after && (FreeOfTwins(alias, k) <==> EndsInTime(alias, was.from) && EndsInTime(alias, was.to))
    {
      assert Outcome(t, ids, alias, rels, k, Stored(after, k));
      MovedEndsAreFree(alias, was);
    }
    forall k | k in after && MovedEndInTime(t, ids, alias) ensures FreeOfTwins(alias, k) {
      EveryEdgeIsAccountedFor(t, ids, alias, rels, after, k);
      if Untouched(t, ids, alias, k) {
        assert k.from !in alias && k.to !in alias;
      } else if !Listed(rels, k) {
        var was :| MovesTo(t, ids, alias, was, k);
      }
    }
  }

  lemma NoEdgeEndsAtTwin(t: Table, ids: set<Id>, alias: Aliases, rels: seq<Edge>, after: Table)
    requires IsMerge(t, ids, alias, rels, after) && RelsAreSound(alias, rels)
    requires TwinsEndInTime(ids, alias)
    ensures AllFreeOfTwins(alias, after)
  {
    forall was, k | MovesTo(t, ids, alias, was, k)
      ensures EndsInTime(alias, was.from) && EndsInTime(alias, was.to)
    {
      EndsUnlessImported(ids, alias, was.from);
      EndsUnlessImported(ids, alias, was.to);
    }
    MergeLeavesNoTwinIffMovedEndInTime(t, ids, alias, rels, after);
  }

  /** An edge of a twin whose chain is too long is left at a twin. */
  lemma LongChainLeavesTwin(ids: set<Id>, alias: Aliases, twin: Id, other: Id, after: Table)
    requires twin in alias && twin !in ids && !EndsInTime(alias, twin)
    requires other !in alias && other !in ids
    requires IsMerge(map[Key(twin, other, "related") := "related"], ids, alias, [], after)
    ensures !AllFreeOfTwins(alias, after)
  {
    var was := Key(twin, other, "related");
    var t := map[was := "related"];
    var k := Repoint(alias, was);
    SurvivorIsEnd(alias, twin);
    assert Hop(alias, other, 0) == other;
    EndIsStable(alias, other, 0, HOPS);
    assert MovesTo(t, ids, alias, was, k);
    assert Outcome(t, ids, alias, [], k, Stored(after, k));
  }

  /**
   * A merge is sure to leave no edge at a twin exactly when the chain of every twin outside the import
   * ends within four steps. (`other` is any document that is neither imported nor a twin.)
   */
  lemma TwinsLoseTheirEdgesIffChainsAreShort(ids: set<Id>, alias: Aliases, other: Id)
    requires other !in alias && other !in ids
    ensures TwinsEndInTime(ids, alias)
       <==> forall t, rels, after :: IsMerge(t, ids, alias, rels, after) && RelsAreSound(alias, rels)
                                     ==> AllFreeOfTwins(alias, after)
  {
    forall t, rels, after | TwinsEndInTime(ids, alias) && IsMerge(t, ids, alias, rels, after)
                            && RelsAreSound(alias, rels)
      ensures AllFreeOfTwins(alias, after)
    {
      NoEdgeEndsAtTwin(t, ids, alias, rels, after);
    }
    forall twin | twin in alias && twin !in ids && !EndsInTime(alias, twin)
      ensures exists t, rels, after :: IsMerge(t, ids, alias, rels, after) && RelsAreSound(alias, rels)
                                       && !AllFreeOfTwins(alias, after)
    {
      var t := map[Key(twin, other, "related") := "related"];
      var after := SomeMerge(t, ids, alias);
      LongChainLeavesTwin(ids, alias, twin, other, after);
    }
  }

  lemma {:induction false} ListingExists(t: Table, ids: set<Id>, keys: set<Key>) returns (found: seq<Edge>)
    ensures Lists(found, OnlyKeys(t, keys), ids)
    decreases |keys|
  {
    if keys == {} {
      found := [];
    } else {
      var k :| k in keys;
      var rest := keys - {k};
      found := ListingExists(t, ids, rest);
      assert keys == rest + {k};
      if k in t {
        ListsOneMore(t, ids, found, rest, k);
        if Touches(k, ids) { found := found + [Edge(k, t[k])]; }
      } else {
        assert OnlyKeys(t, rest) == OnlyKeys(t, keys);
      }
    }
  }

  lemma SomeMerge(t: Table, ids: set<Id>, alias: Aliases) returns (after: Table)
    ensures IsMerge(t, ids, alias, [], after)
  {
    var left := Without(t, ids);
    var moved := ListingExists(left, alias.Keys - ids, left.Keys);
    assert OnlyKeys(left, left.Keys) == left;
    ComputedIsMerge(t, ids, alias, [], moved);
    after := Inserted(Without(left, alias.Keys - ids), [] + Firsts(Shifted(alias, moved)));
  }

  /**
   * Running the same import again keeps exactly the edges that touch no imported document and those
   * the import lists: an edge that the first run moved from a twin to an imported survivor is gone.
   */
  lemma SecondMergeIsExact(t: Table, ids: set<Id>, alias: Aliases, rels: seq<Edge>, after: Table, again: Table)
    requires IsMerge(t, ids, alias, rels, after) && IsMerge(after, ids, alias, rels, again)
    requires RelsAreSound(alias, rels) && TwinsEndInTime(ids, alias)
    requires forall id :: id in alias ==> alias[id] != id
    ensures again == map k | k in after && (!Touches(k, ids) || Listed(rels, k)) :: after[k]
    ensures again == after <==> forall k :: k in after && Touches(k, ids) ==> Listed(rels, k)
  {
    NoEdgeEndsAtTwin(t, ids, alias, rels, after);
    forall k
      ensures Stored(again, k) == if k in after && (!Touches(k, ids) || Listed(rels, k)) then Some(after[k]) else None
    {
      SecondOutcome(t, ids, alias, rels, after, again, k);
    }
    var expected := map k | k in after && (!Touches(k, ids) || Listed(rels, k)) :: after[k];
    forall k ensures Stored(again, k) == Stored(expected, k) {
    }
    SameStored(again, expected);
  }

  /**
   * A moved edge can be lost: the edge of a twin goes to its imported survivor with the first run, and
   * the same import, which does not list it, deletes it there with the second.
   */
  lemma MovedEdgeIsGoneNextTime() returns (t: Table, ids: set<Id>, alias: Aliases, after: Table, again: Table)
    ensures var twin, full, other := Id("twin"), Id("full"), Id("other");
      && t == map[Key(twin, other, "related") := "related"] && ids == {full} && alias == map[twin := full]
      && IsMerge(t, ids, alias, [], after) && IsMerge(after, ids, alias, [], again)
      && after == map[Key(full, other, "related") := "related"] && again == map[]
  {
    var twin, full, other := Id("twin"), Id("full"), Id("other");
    var was, now := Key(twin, other, "related"), Key(full, other, "related");
    t, ids, alias := map[was := "related"], {full}, map[twin := full];
    after := SomeMerge(t, ids, alias);
    again := SomeMerge(after, ids, alias);
    TwinSurvivesAsFull(alias, twin, full, other);
    assert MovesTo(t, ids, alias, was, now);
    forall k ensures Stored(after, k) == if k == now then Some("related") else None {
      assert Outcome(t, ids, alias, [], k, Stored(after, k));
    }
    SameStored(after, map[now := "related"]);
    forall k ensures Stored(again, k) == None {
      assert Outcome(after, ids, alias, [], k, Stored(again, k));
    }
    SameStored(again, map[]);
  }

  lemma TwinSurvivesAsFull(alias: Aliases, twin: Id, full: Id, other: Id)
    requires alias == map[twin := full] && twin != full && other != twin
    ensures SurvivorOf(alias, twin) == full && SurvivorOf(alias, other) == other
  {
    assert Hop(alias, twin, 1) == full;
    EndIsStable(alias, twin, 1, HOPS);
    assert Hop(alias, other, 0) == other;
    EndIsStable(alias, other, 0, HOPS);
  }

  lemma SameStored(a: Table, b: Table)
    requires forall k :: Stored(a, k) == Stored(b, k)
    ensures a == b
  {
    forall k ensures k in a <==> k in b {
      assert Stored(a, k) == Stored(b, k);
    }
    forall k | k in a ensures a[k] == b[k] {
      assert Stored(a, k) == Stored(b, k);
    }
  }

  lemma SecondOutcome(t: Table, ids: set<Id>, alias: Aliases, rels: seq<Edge>, after: Table, again: Table, k: Key)
    requires IsMerge(t, ids, alias, rels, after) && IsMerge(after, ids, alias, rels, again)
    requires AllFreeOfTwins(alias, after)
    requires forall id :: id in alias ==> alias[id] != id
    ensures Stored(again, k)
         == if k in after && (!Touches(k, ids) || Listed(rels, k)) then Some(after[k]) else None
  {
    assert Outcome(t, ids, alias, rels, k, Stored(after, k));
    assert Outcome(after, ids, alias, rels, k, Stored(again, k));
    forall was ensures !MovesTo(after, ids, alias, was, k) {
      if was in after { assert FreeOfTwins(alias, was); }
    }
    if k in after { assert FreeOfTwins(alias, k); }
  }

  /** From the portal's rows to the stored table: with short chains nothing is left at a twin. */
  lemma ImportLeavesNothingAtTwins(im: Import, rows: seq<Row>, t: Table, after: Table)
    requires ShortChains(im.alias)
    requires IsMerge(t, im.ids, im.alias, Built(im, rows), after)
    ensures AllFreeOfTwins(im.alias, after)
    ensures (forall k :: k in t ==> k.from != k.to) ==> forall k :: k in after ==> k.from != k.to
  {
    var rels := Built(im, rows);
    forall k | Listed(rels, k) ensures FreeOfTwins(im.alias, k) && k.from != k.to {
      BuiltIsExact(im, rows, k);
    }
    NoEdgeEndsAtTwin(t, im.ids, im.alias, rels, after);
    if forall k :: k in t ==> k.from != k.to {
      forall k | k in after ensures k.from != k.to {
        NoSelfEdges(t, im.ids, im.alias, rels, after, k);
      }
    }
  }
}
