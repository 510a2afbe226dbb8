/**
 * Writing the links of an import and pruning those it no longer holds, in one transaction. A
 * document whose page was read in full loses its editors' links that the import did not write again;
 * a run that would remove too large a share of them writes nothing.
 */
module ProvisionUpsert {
  import opened Batches
  import opened Options
  import opened ProvisionPages
  import opened ProvisionRows

  datatype Stored = Stored(doc: Id, source: string, details: Details, created: int, updated: int)

  type Table = map<Key, Stored>

  const EDITOR := "vbpl_editor"
  const PRUNE_FLOOR: nat := 50
  const DOC_BATCH: nat := 1000
  const ROW_BATCH: nat := 500

  /** The imported row with a key; of several, the one written last. */
  function RowFor(rows: seq<Row>, k: Key): Option<Row> {
    if rows == [] then None
    else if rows[|rows| - 1].key == k then Some(rows[|rows| - 1])
    else RowFor(rows[..|rows| - 1], k)
  }

  function Write(t: Table, row: Row, now: int): Table {
    var created := if row.key in t then t[row.key].created else now;
    t[row.key := Stored(row.doc, EDITOR, row.details, created, now)]
  }

  function Upserted(t: Table, rows: seq<Row>, now: int): Table {
    if rows == [] then t else Write(Upserted(t, rows[..|rows| - 1], now), rows[|rows| - 1], now)
  }

  /** The editors' links of some documents, and those among them not written at `now` or later. */
  function EditorKeys(t: Table, docs: set<Id>): set<Key> {
    set k | k in t && t[k].source == EDITOR && t[k].doc in docs
  }

  function StaleKeys(t: Table, docs: set<Id>, now: int): set<Key> {
    set k | k in t && t[k].source == EDITOR && t[k].doc in docs && t[k].updated < now
  }

  function Pruned(t: Table, docs: set<Id>, now: int): Table {
    t - StaleKeys(t, docs, now)
  }

  function Applied(t: Table, rows: seq<Row>, docs: set<Id>, now: int): Table {
    Pruned(Upserted(t, rows, now), docs, now)
  }

  predicate Within(removed: nat, had: nat, maxPrune: real) {
    removed <= 50 || removed as real <= maxPrune * had as real
  }

  // ----- key by key -----

  function Find(t: Table, k: Key): Option<Stored> {
    if k in t then Some(t[k]) else None
  }

  lemma {:induction false} UpsertedAt(t: Table, rows: seq<Row>, now: int, k: Key)
    ensures Find(Upserted(t, rows, now), k)
         == match RowFor(rows, k)
            case None => Find(t, k)
            case Some(row) =>
              Some(Stored(row.doc, EDITOR, row.details, if k in t then t[k].created else now, now))
  {
    if rows != [] { UpsertedAt(t, rows[..|rows| - 1], now, k); }
  }

  /**
   * What a successful run leaves at each key: an imported link is there as imported; an older
   * editors' link of a pruned document is gone; anything else is as it was.
   */
  lemma AppliedAt(t: Table, rows: seq<Row>, docs: set<Id>, now: int, k: Key)
    ensures Find(Applied(t, rows, docs, now), k)
         == match RowFor(rows, k)
            case Some(row) =>
              Some(Stored(row.doc, EDITOR, row.details, if k in t then t[k].created else now, now))
            case None => if k in StaleKeys(t, docs, now) then None else Find(t, k)
  {
    UpsertedAt(t, rows, now, k);
  }

  lemma {:induction false} RowForIsMember(rows: seq<Row>, k: Key)
    ensures RowFor(rows, k).Some? <==> HasKey(rows, k)
    ensures RowFor(rows, k).Some? ==> RowFor(rows, k).value in rows && RowFor(rows, k).value.key == k
  {
    if rows != [] {
      var n := |rows| - 1;
      RowForIsMember(rows[..n], k);
      if HasKey(rows, k) && rows[n].key != k {
        var i :| 0 <= i < |rows| && rows[i].key == k;
        assert rows[..n][i].key == k;
      }
      if HasKey(rows[..n], k) {
        var i :| 0 <= i < n && rows[..n][i].key == k;
        assert rows[i].key == k;
      }
    }
  }

  predicate OlderThan(t: Table, now: int) {
    forall k :: k in t ==> t[k].updated < now
  }

  /**
   * With every stored stamp older than this run: the editors' links left at the pruned documents are
   * exactly the imported ones of those documents, every other link is untouched unless it was
   * imported, and what is removed is the old editors' links that were not imported again.
   */
  lemma SuccessIsExact(t: Table, rows: seq<Row>, docs: set<Id>, now: int)
    requires OlderThan(t, now)
    ensures forall k :: k in EditorKeys(Applied(t, rows, docs, now), docs)
                   <==> RowFor(rows, k).Some? && RowFor(rows, k).value.doc in docs
    ensures forall k :: !HasKey(rows, k) && k !in EditorKeys(t, docs)
                        ==> Find(Applied(t, rows, docs, now), k) == Find(t, k)
    ensures forall k :: k in StaleKeys(Upserted(t, rows, now), docs, now)
                   <==> k in EditorKeys(t, docs) && !HasKey(rows, k)
  {
    forall k ensures k in EditorKeys(Applied(t, rows, docs, now), docs)
                <==> RowFor(rows, k).Some? && RowFor(rows, k).value.doc in docs {
      AppliedAt(t, rows, docs, now, k);
    }
    forall k | !HasKey(rows, k) && k !in EditorKeys(t, docs)
      ensures Find(Applied(t, rows, docs, now), k) == Find(t, k)
    {
      AppliedAt(t, rows, docs, now, k);
      RowForIsMember(rows, k);
    }
    forall k ensures k in StaleKeys(Upserted(t, rows, now), docs, now)
                <==> k in EditorKeys(t, docs) && !HasKey(rows, k) {
      UpsertedAt(t, rows, now, k);
      RowForIsMember(rows, k);
    }
  }

  lemma SubsetIsSmaller(a: set<Key>, b: set<Key>)
    requires a <= b
    ensures |a| <= |b|
  {
    assert b == a + (b - a);
  }

  /** No more links are removed than the pruned documents had before, whatever the stamps say. */
  lemma RemovedAtMostHad(t: Table, rows: seq<Row>, docs: set<Id>, now: int)
    ensures StaleKeys(Upserted(t, rows, now), docs, now) <= EditorKeys(t, docs)
    ensures |StaleKeys(Upserted(t, rows, now), docs, now)| <= |EditorKeys(t, docs)|
  {
    forall k | k in StaleKeys(Upserted(t, rows, now), docs, now) ensures k in EditorKeys(t, docs) {
      UpsertedAt(t, rows, now, k);
    }
    SubsetIsSmaller(StaleKeys(Upserted(t, rows, now), docs, now), EditorKeys(t, docs));
  }

  /** The same import again, later: it removes nothing, so no limit stops it, and only stamps change. */
  lemma SecondRunRemovesNothing(t: Table, rows: seq<Row>, docs: set<Id>, now: int, later: int, k: Key)
    requires OlderThan(t, now) && now < later
    ensures StaleKeys(Upserted(Applied(t, rows, docs, now), rows, later), docs, later) == {}
    ensures Find(Applied(Applied(t, rows, docs, now), rows, docs, later), k)
         == match Find(Applied(t, rows, docs, now), k)
            case None => None
            case Some(s) => Some(s.(updated := if HasKey(rows, k) then later else s.updated))
  {
    var after := Applied(t, rows, docs, now);
    var stale := StaleKeys(Upserted(after, rows, later), docs, later);
    forall key ensures key !in stale {
      AppliedAt(t, rows, docs, now, key);
      UpsertedAt(after, rows, later, key);
    }
    AppliedAt(t, rows, docs, now, k);
    AppliedAt(after, rows, docs, later, k);
    RowForIsMember(rows, k);
  }

  // ----- the transaction -----

  lemma CountsAdd(t: Table, a: set<Id>, b: set<Id>)
    requires a !! b
    ensures |EditorKeys(t, a + b)| == |EditorKeys(t, a)| + |EditorKeys(t, b)|
  {
    assert EditorKeys(t, a + b) == EditorKeys(t, a) + EditorKeys(t, b);
    assert EditorKeys(t, a) !! EditorKeys(t, b);
  }

  lemma PruneAgain(t: Table, a: set<Id>, b: set<Id>, now: int)
    ensures Pruned(Pruned(t, a, now), b, now) == Pruned(t, a + b, now)
    ensures |StaleKeys(t, a + b, now)| == |StaleKeys(t, a, now)| + |StaleKeys(Pruned(t, a, now), b, now)|
  {
    var first, second := StaleKeys(t, a, now), StaleKeys(Pruned(t, a, now), b, now);
    assert StaleKeys(t, a + b, now) == first + second;
    assert first !! second;
  }

  lemma {:induction false} UpsertedConcat(t: Table, a: seq<Row>, b: seq<Row>, now: int)
    ensures Upserted(Upserted(t, a, now), b, now) == Upserted(t, a + b, now)
    decreases |b|
  {
    if b == [] {
      assert a + b == a;
    } else {
      var n := |b| - 1;
      assert (a + b)[..|a + b| - 1] == a + b[..n];
      UpsertedConcat(t, a, b[..n], now);
    }
  }

  lemma BatchAdds(t: Table, rows: seq<Row>, lo: nat, hi: nat, now: int)
    requires lo <= hi <= |rows|
    ensures Upserted(Upserted(t, rows[..lo], now), rows[lo..hi], now) == Upserted(t, rows[..hi], now)
    ensures DistinctKeys(rows) ==> DistinctKeys(rows[lo..hi])
  {
    UpsertedConcat(t, rows[..lo], rows[lo..hi], now);
    assert rows[..hi] == rows[..lo] + rows[lo..hi];
  }

  /** The stored links. A statement whose number is in `failing` is refused by the database. */
  class ProvisionStore {
    var table: Table

    constructor (table: Table)
      ensures this.table == table
    {
      this.table := table;
    }

    method CountEditorRows(docs: seq<Id>, failing: set<nat>) returns (ok: bool, had: nat, next: nat)
      requires AllDifferent(docs)
      ensures ok ==> had == |EditorKeys(table, Members(docs))|
      ensures failing == {} ==> ok
    {
      ok, had, next := true, 0, 0;
      var start := 0;
      assert EditorKeys(table, {}) == {};
      while start < |docs|
        invariant had == |EditorKeys(table, Members(docs[..Min(start, |docs|)]))|
      {
        if next in failing { return false, had, next; }
        var end := Min(|docs|, start + DOC_BATCH);
        MembersSplit(docs, start, end);
        CountsAdd(table, Members(docs[..start]), Members(docs[start..end]));
        had := had + |EditorKeys(table, Members(docs[start..end]))|;
        start, next := start + DOC_BATCH, next + 1;
      }
      assert docs[..|docs|] == docs;
    }

    /** One insert-or-update statement; the database refuses one that names a key twice. */
    method WriteBatch(rows: seq<Row>, now: int) returns (ok: bool)
      modifies this
      ensures ok <==> DistinctKeys(rows)
      ensures ok ==> table == Upserted(old(table), rows, now)
    {
      ok := forall i, j :: 0 <= i < j < |rows| ==> rows[i].key != rows[j].key;
      if !ok { return; }
      var i := 0;
      while i < |rows|
        invariant i <= |rows|
        invariant table == Upserted(old(table), rows[..i], now)
      {
        assert rows[..i + 1][..i] == rows[..i];
        table := Write(table, rows[i], now);
        i := i + 1;
      }
      assert rows[..i] == rows;
    }

    method CreateInBatches(rows: seq<Row>, now: int, failing: set<nat>, first: nat) returns (ok: bool, next: nat)
      modifies this
      ensures ok ==> table == Upserted(old(table), rows, now)
      ensures failing == {} && DistinctKeys(rows) ==> ok
    {
      ok, next := true, first;
      var start := 0;
      while start < |rows|
        invariant table == Upserted(old(table), rows[..Min(start, |rows|)], now)
      {
        if next in failing { return false, next; }
        var end := Min(|rows|, start + ROW_BATCH);
        BatchAdds(old(table), rows, start, end, now);
        ok := WriteBatch(rows[start..end], now);
        if !ok { return; }
        start, next := start + ROW_BATCH, next + 1;
      }
      assert rows[..|rows|] == rows;
    }

    method DeleteStale(docs: seq<Id>, now: int, failing: set<nat>, first: nat) returns (ok: bool, removed: nat)
      modifies this
      ensures ok ==> table == Pruned(old(table), Members(docs), now)
      ensures ok ==> removed == |StaleKeys(old(table), Members(docs), now)|
      ensures failing == {} ==> ok
    {
      ok, removed := true, 0;
      var next := first;
      var start := 0;
      assert StaleKeys(table, {}, now) == {};
      while start < |docs|
        invariant table == Pruned(old(table), Members(docs[..Min(start, |docs|)]), now)
        invariant removed == |StaleKeys(old(table), Members(docs[..Min(start, |docs|)]), now)|
      {
        if next in failing { return false, removed; }
        var end := Min(|docs|, start + DOC_BATCH);
        var batch := Members(docs[start..end]);
        MembersSplit(docs, start, end);
        PruneAgain(old(table), Members(docs[..start]), batch, now);
        removed := removed + |StaleKeys(table, batch, now)|;
        table := Pruned(table, batch, now);
        start, next := start + DOC_BATCH, next + 1;
      }
      assert docs[..|docs|] == docs;
    }

    /**
     * Writes the rows and prunes the documents, or does nothing at all: when a statement fails, or
     * when more than a handful of links and more than the allowed share of them would go.
     */
    method Upsert(rows: seq<Row>, docs: seq<Id>, maxPrune: real, now: int, failing: set<nat>)
      returns (ok: bool, removed: nat)
      requires AllDifferent(docs)
      modifies this
      ensures ok ==> table == Applied(old(table), rows, Members(docs), now)
      ensures ok ==> removed == |StaleKeys(Upserted(old(table), rows, now), Members(docs), now)|
      ensures ok ==> Within(removed, |EditorKeys(old(table), Members(docs))|, maxPrune)
      ensures !ok ==> table == old(table) && removed == 0
      ensures failing == {} && DistinctKeys(rows) ==>
                (ok <==> Within(|StaleKeys(Upserted(old(table), rows, now), Members(docs), now)|,
                                |EditorKeys(old(table), Members(docs))|, maxPrune))
    {
      var before := table;
      var had, next;
      removed := 0;
      ok, had, next := CountEditorRows(docs, failing);
      if !ok { return; }
      if |rows| > 0 {
        ok, next := CreateInBatches(rows, now, failing, next);
        if !ok {
          table := before;
          return;
        }
      }
      ok, removed := DeleteStale(docs, now, failing, next);
      if ok && removed > PRUNE_FLOOR && removed as real > maxPrune * had as real {
        ok := false;
      }
      if !ok {
        table := before;
        removed := 0;
      }
    }
  }
}
