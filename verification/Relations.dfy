/**
 * Relations between catalogue documents. Rows of the portal become directed edges between surviving
 * documents; an import then replaces the edges of the documents it carries, moves the edges stored at
 * twins to the rows that survive them, and leaves every other edge alone.
 */
module Relations {
  import opened Options
  import opened TwinAliases

  datatype Key = Key(from: Id, to: Id, relation: string)

  /** An edge with the wording it was listed under. */
  datatype Edge = Edge(key: Key, source: string)

  /** The stored relations; both ends and the kind of the relation are the primary key. */
  type Table = map<Key, string>

  const BATCH: nat := 1000

  // ----- lists of edges without self edges and repeats -----

  /** The wording of the first edge listed with a key. */
  function Source(edges: seq<Edge>, k: Key): Option<string> {
    if edges == [] then None
    else
      var earlier := Source(edges[..|edges| - 1], k);
      if earlier.Some? then earlier
      else if edges[|edges| - 1].key == k then Some(edges[|edges| - 1].source)
      else None
  }

  predicate Listed(edges: seq<Edge>, k: Key) {
    Source(edges, k).Some?
  }

  lemma {:induction false} SourceIsFirst(edges: seq<Edge>, k: Key) returns (i: nat)
    requires Listed(edges, k)
    ensures i < |edges| && edges[i] == Edge(k, Source(edges, k).value)
    ensures forall j :: 0 <= j < i ==> edges[j].key != k
  {
    var n := |edges| - 1;
    if Listed(edges[..n], k) {
      i := SourceIsFirst(edges[..n], k);
    } else {
      i := n;
      forall j | 0 <= j < n ensures edges[j].key != k {
        if edges[j].key == k { MemberIsListed(edges[..n], j); }
      }
    }
  }

  lemma {:induction false} MemberIsListed(edges: seq<Edge>, i: nat)
    requires i < |edges|
    ensures Listed(edges, edges[i].key)
  {
    var n := |edges| - 1;
    if i < n { MemberIsListed(edges[..n], i); }
  }

  lemma {:induction false} SourceOfConcat(a: seq<Edge>, b: seq<Edge>, k: Key)
    ensures Source(a + b, k) == if Listed(a, k) then Source(a, k) else Source(b, k)
    decreases |b|
  {
    if b == [] {
      assert a + b == a;
    } else {
      var n := |b| - 1;
      assert (a + b)[..|a + b| - 1] == a + b[..n];
      SourceOfConcat(a, b[..n], k);
    }
  }

  predicate Distinct(edges: seq<Edge>) {
    forall i, j :: 0 <= i < j < |edges| ==> edges[i].key != edges[j].key
  }

  function Firsts(edges: seq<Edge>): seq<Edge> {
    if edges == [] then []
    else
      var kept := Firsts(edges[..|edges| - 1]);
      var e := edges[|edges| - 1];
      if Listed(kept, e.key) then kept else kept + [e]
  }

  /** Of the edges listed with a key exactly one is kept, the first. */
  lemma {:induction false} FirstsKeepSources(edges: seq<Edge>, k: Key)
    ensures Source(Firsts(edges), k) == Source(edges, k)
  {
    if edges != [] {
      var init, e := edges[..|edges| - 1], edges[|edges| - 1];
      FirstsKeepSources(init, k);
      var kept := Firsts(init);
      assert (kept + [e])[..|kept|] == kept;
      if Listed(kept, e.key) && e.key == k { assert Listed(init, k); }
    }
  }

  lemma {:induction false} FirstsAreDistinct(edges: seq<Edge>)
    ensures Distinct(Firsts(edges))
  {
    if edges != [] {
      var kept := Firsts(edges[..|edges| - 1]);
      FirstsAreDistinct(edges[..|edges| - 1]);
      forall i | 0 <= i < |kept| ensures Listed(kept, kept[i].key) {
        MemberIsListed(kept, i);
      }
    }
  }

  // ----- from rows of the portal to edges -----

  datatype Row = Row(doc: Id, other: Id, wording: string)

  /**
   * What an import knows: the documents it carries, the documents it may link to, the twins, and the
   * table of wordings, which gives a row its direction and kind or rejects it.
   */
  datatype Import = Import(ids: set<Id>, known: set<Id>, alias: Aliases, edge: Row -> Option<Key>)

  datatype Verdict = Skip(reason: string) | Keep(edge: Edge)

  function Repoint(alias: Aliases, k: Key): Key {
    Key(SurvivorOf(alias, k.from), SurvivorOf(alias, k.to), k.relation)
  }

  predicate Touches(k: Key, ids: set<Id>) {
    k.from in ids || k.to in ids
  }

  function Judge(im: Import, r: Row): Verdict {
    var edge := im.edge(r);
    if edge.None? then Skip("label:" + r.wording)
    else if !Touches(edge.value, im.ids) then Skip("outside catalogue")
    else
      var k := Repoint(im.alias, edge.value);
      if k.from !in im.known || k.to !in im.known || k.from == k.to then Skip("outside catalogue")
      else Keep(Edge(k, r.wording))
  }

  function Kept(im: Import, rows: seq<Row>): seq<Edge> {
    if rows == [] then []
    else
      var kept := Kept(im, rows[..|rows| - 1]);
      var verdict := Judge(im, rows[|rows| - 1]);
      if verdict.Keep? then kept + [verdict.edge] else kept
  }

  /** The edges an import of these rows ends up with. */
  function Built(im: Import, rows: seq<Row>): seq<Edge> {
    Firsts(Kept(im, rows))
  }

  function Skipped(im: Import, rows: seq<Row>, reason: string): nat {
    if rows == [] then 0
    else Skipped(im, rows[..|rows| - 1], reason)
         + if Judge(im, rows[|rows| - 1]) == Skip(reason) then 1 else 0
  }

  lemma {:induction false} KeptAreJudged(im: Import, rows: seq<Row>)
    ensures forall e :: e in Kept(im, rows) ==> exists r :: r in rows && Judge(im, r) == Keep(e)
    ensures forall r :: r in rows && Judge(im, r).Keep? ==> Judge(im, r).edge in Kept(im, rows)
  {
    if rows != [] {
      var n := |rows| - 1;
      KeptAreJudged(im, rows[..n]);
      assert rows == rows[..n] + [rows[n]];
    }
  }

  /**
   * The edges built are exactly those some row stands for, each once, and each joins two different
   * known documents; if all chains of twins are short, neither of them is a twin.
   */
  lemma BuiltIsExact(im: Import, rows: seq<Row>, k: Key)
    ensures Distinct(Built(im, rows))
    ensures Listed(Built(im, rows), k) <==>
            exists r :: r in rows && Judge(im, r).Keep? && Judge(im, r).edge.key == k
    ensures Listed(Built(im, rows), k) ==> k.from in im.known && k.to in im.known && k.from != k.to
    ensures Listed(Built(im, rows), k) && ShortChains(im.alias) ==>
              !Aliased(im.alias, k.from) && !Aliased(im.alias, k.to)
  {
    var kept := Kept(im, rows);
    KeptAreJudged(im, rows);
    FirstsAreDistinct(kept);
    FirstsKeepSources(kept, k);
    if Listed(kept, k) {
      var i := SourceIsFirst(kept, k);
      var r :| r in rows && Judge(im, r) == Keep(kept[i]);
      var was := im.edge(r).value;
      assert k == Repoint(im.alias, was);
      if ShortChains(im.alias) { RepointedIsSettled(im.alias, was); }
    }
    forall r | r in rows && Judge(im, r).Keep? && Judge(im, r).edge.key == k ensures Listed(kept, k) {
      var i :| 0 <= i < |kept| && kept[i] == Judge(im, r).edge;
      MemberIsListed(kept, i);
    }
  }

  /** A row stands for an edge: its wording has a direction, it touches the import, and both ends are known. */
  ghost predicate StandsFor(im: Import, r: Row, k: Key) {
    && im.edge(r).Some? && (im.edge(r).value.from in im.ids || im.edge(r).value.to in im.ids)
    && k == Key(SurvivorOf(im.alias, im.edge(r).value.from), SurvivorOf(im.alias, im.edge(r).value.to),
                im.edge(r).value.relation)
    && k.from in im.known && k.to in im.known && k.from != k.to
  }

  /** Every edge some row stands for is built, and no other. */
  lemma BuiltFromRows(im: Import, rows: seq<Row>, k: Key)
    ensures Listed(Built(im, rows), k) <==> exists r :: r in rows && StandsFor(im, r, k)
  {
    BuiltIsExact(im, rows, k);
    forall r | r in rows ensures (Judge(im, r).Keep? && Judge(im, r).edge.key == k) <==> StandsFor(im, r, k) {
    }
  }

  /** Every row stands for an edge or is counted once under its reason: its wording, or what it joins. */
  lemma SkipIsExact(im: Import, r: Row, reason: string)
    ensures Judge(im, r) == Skip(reason) <==>
              (!exists k :: StandsFor(im, r, k))
              && reason == if im.edge(r).None? then "label:" + r.wording else "outside catalogue"
  {
    var e := im.edge(r);
    if e.Some? {
      assert StandsFor(im, r, Repoint(im.alias, e.value)) <==> Judge(im, r).Keep?;
    }
  }

  lemma RepointedIsSettled(alias: Aliases, k: Key)
    requires ShortChains(alias)
    ensures !Aliased(alias, Repoint(alias, k).from) && !Aliased(alias, Repoint(alias, k).to)
  {
    assert EndsInTime(alias, k.from) && EndsInTime(alias, k.to);
    SurvivorIsEnd(alias, k.from);
    SurvivorIsEnd(alias, k.to);
  }

  function Count(skipped: map<string, nat>, reason: string): nat {
    if reason in skipped then skipped[reason] else 0
  }

  lemma AppendLists(edges: seq<Edge>, e: Edge)
    ensures forall k :: Listed(edges + [e], k) <==> Listed(edges, k) || e.key == k
  {
    assert (edges + [e])[..|edges|] == edges;
  }

  lemma SkipStep(im: Import, rows: seq<Row>, r: Row, reason: string)
    requires Judge(im, r) == Skip(reason)
    ensures Built(im, rows + [r]) == Built(im, rows)
    ensures forall other ::
              Skipped(im, rows + [r], other) == Skipped(im, rows, other) + if other == reason then 1 else 0
  {
    assert (rows + [r])[..|rows|] == rows;
  }

  lemma KeepStep(im: Import, rows: seq<Row>, r: Row, e: Edge)
    requires Judge(im, r) == Keep(e)
    ensures Built(im, rows + [r])
         == if Listed(Built(im, rows), e.key) then Built(im, rows) else Built(im, rows) + [e]
    ensures forall other :: Skipped(im, rows + [r], other) == Skipped(im, rows, other)
  {
    assert (rows + [r])[..|rows|] == rows;
    var kept := Kept(im, rows);
    assert (kept + [e])[..|kept|] == kept;
  }

  /** The edges of an import as they are collected, row after row. */
  class EdgeBuilder {
    const im: Import
    var seen: set<Key>
    var rels: seq<Edge>
    var skipped: map<string, nat>
    ghost var rows: seq<Row>

    ghost predicate Valid()
      reads this
    {
      && rels == Built(im, rows)
      && (forall k :: k in seen <==> Listed(rels, k))
      && (forall reason :: Count(skipped, reason) == Skipped(im, rows, reason))
    }

    constructor (im: Import)
      ensures Valid() && rows == [] && this.im == im
    {
      this.im := im;
      seen, rels, skipped, rows := {}, [], map[], [];
    }

    method SkipRow(r: Row, reason: string)
      requires Valid() && Judge(im, r) == Skip(reason)
      modifies this
      ensures Valid() && rows == old(rows) + [r]
    {
      SkipStep(im, rows, r, reason);
      rows := rows + [r];
      skipped := skipped[reason := Count(skipped, reason) + 1];
    }

    method KeepRow(r: Row, e: Edge)
      requires Valid() && Judge(im, r) == Keep(e)
      modifies this
      ensures Valid() && rows == old(rows) + [r]
    {
      KeepStep(im, rows, r, e);
      rows := rows + [r];
      if e.key in seen { return; }
      AppendLists(rels, e);
      seen := seen + {e.key};
      rels := rels + [e];
    }

    method Add(r: Row)
      requires Valid()
      modifies this
      ensures Valid() && rows == old(rows) + [r]
    {
      var edge := im.edge(r);
      if edge.None? {
        SkipRow(r, "label:" + r.wording);
        return;
      }
      var from, to := edge.value.from, edge.value.to;
      if from !in im.ids && to !in im.ids {
        SkipRow(r, "outside catalogue");
        return;
      }
      from := Survivor(im.alias, from);
      to := Survivor(im.alias, to);
      if from !in im.known || to !in im.known || from == to {
        SkipRow(r, "outside catalogue");
        return;
      }
      KeepRow(r, Edge(Key(from, to, edge.value.relation), r.wording));
    }
  }
}
