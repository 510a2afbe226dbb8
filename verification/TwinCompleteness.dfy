/**
 * internal/legalcatalog/twins.go: which documents must be found to be twins. A new document is dropped
 * exactly if a row that holds its key is the same document, and copies of one document that come with
 * an import end at one row.
 */
module TwinCompleteness {
  import opened Options
  import opened TwinAliases
  import opened TwinResolution

  /** r is d under another id. */
  predicate Copy(t: Tests, r: Doc, d: Doc) {
    r.id != d.id && t.same(r, d)
  }

  /** d may be attached to r: its copy, and a full one or one that waits as d does. */
  predicate MayTake(t: Tests, r: Doc, d: Doc) {
    Copy(t, r, d) && (!Waits(t, r) || Waits(t, d))
  }

  // ----- the same document among some rows -----

  /** What is found is a copy, a full one if there is any, and the first of its kind. */
  lemma {:induction false} SameInIs(t: Tests, rows: seq<Doc>, d: Doc)
    ensures var s := SameIn(t, rows, d);
      && (s.Some? <==> exists r :: r in rows && Copy(t, r, d))
      && (s.Some? && Waits(t, s.value) ==> forall r :: r in rows && Copy(t, r, d) ==> Waits(t, r))
  {
    if rows != [] {
      SameInIs(t, rows[1..], d);
      assert rows == [rows[0]] + rows[1..];
      if exists r :: r in rows && Copy(t, r, d) {
        var r :| r in rows && Copy(t, r, d);
        assert r == rows[0] || r in rows[1..];
      }
    }
  }

  /** Rows added behind do not change what was found, unless only they are full. */
  lemma {:induction false} SameInGrows(t: Tests, rows: seq<Doc>, e: Doc, d: Doc)
    ensures SameIn(t, rows + [e], d)
         == var s := SameIn(t, rows, d);
            if Copy(t, e, d) && (s.None? || (Waits(t, s.value) && !Waits(t, e))) then Some(e) else s
  {
    if rows == [] {
      assert [e][1..] == [];
    } else {
      assert (rows + [e])[1..] == rows[1..] + [e];
      SameInGrows(t, rows[1..], e, d);
    }
  }

  // ----- what one document leaves alone -----

  lemma {:induction false} ReplaceInAdds(t: Tests, st: State, rows: seq<Doc>, full: Doc)
    ensures var s := ReplaceIn(t, st, rows, full);
      && s == st.(alias := s.alias, differs := s.differs)
      && (forall id :: id in st.alias ==> id in s.alias && s.alias[id] == st.alias[id])
      && (forall p :: p in rows && Copy(t, p, full) && Waits(t, p) ==>
            p.id in s.alias && (p.id !in st.alias ==> s.alias[p.id] == full.id))
      && (forall id :: id in s.alias && id !in st.alias ==>
            s.alias[id] == full.id && exists p :: p in rows && p.id == id && Copy(t, p, full) && Waits(t, p))
    decreases rows
  {
    if rows != [] {
      var p := rows[0];
      assert rows == [p] + rows[1..];
      var s := if p.id !in st.alias && p.id != full.id && Waits(t, p) && t.same(p, full) then Attach(t, st, p, full)
               else st;
      ReplaceInAdds(t, s, rows[1..], full);
      assert p in rows;
      forall q | q in rows[1..] ensures q in rows {
      }
    }
  }

  lemma {:induction false} ReachAdds(t: Tests, st: State, twins: seq<Twin>, d: Doc)
    ensures var s := Reach(t, st, twins, d);
      && s == st.(alias := s.alias, differs := s.differs, unreachable := s.unreachable)
      && (forall id :: id in st.alias ==> id in s.alias && s.alias[id] == st.alias[id])
      && (forall u :: u in twins && t.fold(u.row.key) == d.key && t.same(u.row, d) ==> u.row.id in s.alias)
      && (forall id :: id in s.alias && id !in st.alias ==>
            s.alias[id] == d.id && exists u :: u in twins && u.row.id == id && t.same(u.row, d))
    decreases twins
  {
    if twins != [] {
      var u := twins[0];
      assert twins == [u] + twins[1..];
      if u.row.id !in st.alias && t.fold(u.row.key) == d.key && t.same(u.row, d) {
        ReachAdds(t, Attach(t, st, u.row, d), twins[1..], d);
      } else {
        ReachAdds(t, st.(unreachable := st.unreachable + [u]), twins[1..], d);
      }
    }
  }

  lemma ReplaceAdds(t: Tests, st: State, waiting: Doc, full: Doc)
    requires waiting in Rows(st.byKey, waiting.key) && Copy(t, waiting, full) && Waits(t, waiting)
    ensures var s := Replace(t, st, waiting, full);
      && s == st.(alias := s.alias, differs := s.differs)
      && (forall id :: id in st.alias ==> id in s.alias && s.alias[id] == st.alias[id])
      && (forall p :: p in Rows(st.byKey, waiting.key) && Copy(t, p, full) && Waits(t, p) ==>
            p.id in s.alias && (p.id !in st.alias ==> s.alias[p.id] == full.id))
      && (forall id :: id in s.alias && id !in st.alias ==>
            s.alias[id] == full.id
            && exists p :: p in Rows(st.byKey, waiting.key) && p.id == id && Copy(t, p, full) && Waits(t, p))
  {
    var a := if waiting.id in st.alias then st else Attach(t, st, waiting, full);
    ReplaceInAdds(t, a, Rows(st.byKey, waiting.key), full);
  }

  /** One document changes the alias of no other twin, and whether no other is dropped or renumbered. */
  ghost predicate Untouched(st: State, s: State, id: Id) {
    && (id in s.dropped <==> id in st.dropped) && (id in s.renumbered <==> id in st.renumbered)
    && (id in st.alias ==> id in s.alias && s.alias[id] == st.alias[id])
  }

  lemma NewTouches(t: Tests, st: State, d: Doc, id: Id)
    requires id != d.id
    ensures Untouched(st, WeighNew(t, st, d), id)
  {
    var s := SameIn(t, Rows(st.byKey, d.key), d);
    if !(s.Some? && (!Waits(t, s.value) || Waits(t, d))) {
      var r := if s.Some? then Replace(t, st, s.value, d) else st;
      if s.Some? { FoundReplaces(t, st, s.value, d); }
      ReachAdds(t, r.(unreachable := []), r.unreachable, d);
    }
  }

  lemma FoundReplaces(t: Tests, st: State, found: Doc, d: Doc)
    ensures var s := Replace(t, st, found, d);
      && s == st.(alias := s.alias, differs := s.differs)
      && (forall id :: id in st.alias ==> id in s.alias && s.alias[id] == st.alias[id])
  {
    var a := if found.id in st.alias then st else Attach(t, st, found, d);
    ReplaceInAdds(t, a, Rows(st.byKey, found.key), d);
  }

  lemma KnownTouches(t: Tests, st: State, d: Doc, cur: Doc, id: Id)
    requires id != d.id
    ensures Untouched(st, WeighKnown(t, st, d, cur), id)
  {
    var holders := Except(Rows(st.byKey, d.key), d.id);
    var s := SameIn(t, holders, d);
    if cur.key != d.key && t.fold(cur.key) == d.key && holders != [] && s.Some? {
      FoundReplaces(t, st, s.value, d);
    }
  }

  lemma WeighTouches(t: Tests, cats: map<Id, Doc>, st: State, d: Doc, id: Id)
    requires id != d.id
    ensures Untouched(st, Weigh(t, cats, st, d), id)
  {
    if d.id in cats { KnownTouches(t, st, d, cats[d.id], id); } else { NewTouches(t, st, d, id); }
  }

  lemma UntouchedChain(a: State, b: State, c: State, id: Id)
    requires Untouched(a, b, id) && Untouched(b, c, id)
    ensures Untouched(a, c, id)
  {
  }

  /** What the weighing of order[..i] made of an id stays, if none of the others has it. */
  lemma {:induction false} Stays(t: Tests, existing: seq<Doc>, docs: seq<Doc>, order: seq<Doc>, i: nat, id: Id)
    requires i <= |order| && forall j :: i <= j < |order| ==> order[j].id != id
    ensures Untouched(Weighed(t, existing, docs, order[..i]), Weighed(t, existing, docs, order), id)
    decreases |order|
  {
    if i == |order| {
      assert order[..i] == order;
    } else {
      var n := |order| - 1;
      var st := Weighed(t, existing, docs, order[..n]);
      assert order[..n][..i] == order[..i];
      Stays(t, existing, docs, order[..n], i, id);
      WeighTouches(t, ById(existing), st, order[n], id);
      UntouchedChain(Weighed(t, existing, docs, order[..i]), st, Weighed(t, existing, docs, order), id);
    }
  }

  // ----- a new document -----

  /** d is attached to one of the rows, a full copy if there is one. */
  ghost predicate TakenBy(t: Tests, rows: seq<Doc>, alias: Aliases, d: Doc) {
    && d.id in alias
    && exists r :: r in rows && MayTake(t, r, d) && r.id == alias[d.id]
                   && (Waits(t, r) ==> forall q :: q in rows && Copy(t, q, d) ==> Waits(t, q))
  }

  /** A new document is dropped exactly if it may be attached to a row that holds its key, and then it is. */
  lemma NewIsDroppedIff(t: Tests, st: State, d: Doc)
    requires d.id !in st.dropped
    ensures var s := WeighNew(t, st, d);
      && (d.id in s.dropped <==> exists r :: r in Rows(st.byKey, d.key) && MayTake(t, r, d))
      && (d.id in s.dropped ==> TakenBy(t, Rows(st.byKey, d.key), s.alias, d))
  {
    var s := SameIn(t, Rows(st.byKey, d.key), d);
    SameInIs(t, Rows(st.byKey, d.key), d);
    if !(s.Some? && (!Waits(t, s.value) || Waits(t, d))) {
      var r := if s.Some? then Replace(t, st, s.value, d) else st;
      if s.Some? { FoundReplaces(t, st, s.value, d); }
      ReachAdds(t, r.(unreachable := []), r.unreachable, d);
    }
  }

  /** What is held under a key has that key. */
  ghost predicate KeysFit(byKey: Index) {
    forall key, r :: r in Rows(byKey, key) ==> r.key == key
  }

  /** A new copy that is kept is attached to by every copy that waits, and every row left unreachable. */
  lemma NewReplacesWaiting(t: Tests, st: State, d: Doc)
    requires KeysFit(st.byKey) && d.id !in WeighNew(t, st, d).dropped && d.id !in st.dropped
    ensures var alias := WeighNew(t, st, d).alias;
      && (forall p :: p in Rows(st.byKey, d.key) && Copy(t, p, d) && Waits(t, p) ==>
            p.id in alias && (p.id !in st.alias ==> alias[p.id] == d.id))
      && (forall u :: u in st.unreachable && t.fold(u.row.key) == d.key && t.same(u.row, d) ==> u.row.id in alias)
  {
    var rows := Rows(st.byKey, d.key);
    var s := SameIn(t, rows, d);
    SameInIs(t, rows, d);
    var r := if s.Some? then Replace(t, st, s.value, d) else st;
    if s.Some? { ReplaceAdds(t, st, s.value, d); }
    ReachAdds(t, r.(unreachable := []), r.unreachable, d);
  }

  // ----- which rows hold a key -----

  /** By what became of it: a document that comes to hold its key with the import. */
  predicate Joins(t: Tests, cats: map<Id, Doc>, s: State, d: Doc) {
    && d.key != ""
    && (if d.id !in cats then d.id !in s.dropped
        else cats[d.id].key != d.key
             && (if t.fold(cats[d.id].key) == d.key then d.id !in s.renumbered else !cats[d.id].reviewed))
  }

  lemma WeighJoins(t: Tests, cats: map<Id, Doc>, st: State, d: Doc)
    requires d.id !in st.dropped && d.id !in st.renumbered
    ensures var s := Weigh(t, cats, st, d);
      s.byKey == if Joins(t, cats, s, d) then Added(st.byKey, d) else st.byKey
  {
    if d.id in cats {
      KnownJoins(t, cats, st, d);
    } else {
      var s := SameIn(t, Rows(st.byKey, d.key), d);
      if !(s.Some? && (!Waits(t, s.value) || Waits(t, d))) {
        var r := if s.Some? then Replace(t, st, s.value, d) else st;
        if s.Some? { FoundReplaces(t, st, s.value, d); }
        ReachAdds(t, r.(unreachable := []), r.unreachable, d);
      }
    }
  }

  lemma KnownJoins(t: Tests, cats: map<Id, Doc>, st: State, d: Doc)
    requires d.id in cats && d.id !in st.renumbered
    ensures var s := WeighKnown(t, st, d, cats[d.id]);
      s.byKey == if Joins(t, cats, s, d) then Added(st.byKey, d) else st.byKey
  {
    var holders := Except(Rows(st.byKey, d.key), d.id);
    var s := SameIn(t, holders, d);
    if s.Some? { FoundReplaces(t, st, s.value, d); }
  }

  /** The rows that hold a key from the start. */
  ghost predicate FirstHolder(t: Tests, existing: seq<Doc>, docs: seq<Doc>, r: Doc) {
    && r.key != "" && t.fold(r.key) == r.key
    && ((r in existing && (r.reviewed || r.id !in ById(docs)))
        || (r.id in ById(docs) && r == ById(docs)[r.id]
            && exists e :: e in existing && e.id == r.id && e.key == r.key && !e.reviewed))
  }

  /** A row holds its key from the start, or came to hold it as one of order[..i]. */
  ghost predicate HeldBefore(t: Tests, existing: seq<Doc>, docs: seq<Doc>, order: seq<Doc>, i: nat, s: State, r: Doc)
    requires i <= |order|
  {
    FirstHolder(t, existing, docs, r) || (r in order[..i] && Joins(t, ById(existing), s, r))
  }

  lemma AddedRows(byKey: Index, d: Doc, key: string, r: Doc)
    ensures r in Rows(Added(byKey, d), key) <==> r in Rows(byKey, key) || (r == d && key == d.key)
  {
  }

  lemma {:induction false} FirstHeld(t: Tests, docs: seq<Doc>, existing: seq<Doc>, key: string, r: Doc)
    requires DifferentIds(docs)
    ensures r in Rows(Indexed(t, ById(docs), existing), key) <==> r.key == key && FirstHolder(t, existing, docs, r)
  {
    ByIdIs(docs);
    if existing != [] {
      var init, e := existing[..|existing| - 1], existing[|existing| - 1];
      assert existing == init + [e];
      FirstHeld(t, docs, init, key, r);
      var h := Holder(t, ById(docs), e);
      if h.Some? { AddedRows(Indexed(t, ById(docs), init), h.value, key, r); }
    }
  }

  lemma JoinsAlike(t: Tests, cats: map<Id, Doc>, st: State, s: State, r: Doc)
    requires Untouched(st, s, r.id)
    ensures Joins(t, cats, st, r) <==> Joins(t, cats, s, r)
  {
  }

  lemma NotYetTouched(t: Tests, existing: seq<Doc>, docs: seq<Doc>, order: seq<Doc>, id: Id)
    requires forall j :: 0 <= j < |order| ==> order[j].id != id
    ensures var s := Weighed(t, existing, docs, order); id !in s.dropped && id !in s.renumbered
  {
    Stays(t, existing, docs, order, 0, id);
  }

  /** What holds a key once a part of the import is weighed. */
  lemma {:induction false} HeldIs(t: Tests, existing: seq<Doc>, docs: seq<Doc>, order: seq<Doc>, key: string, r: Doc)
    requires DifferentIds(docs) && Arranged(order, docs)
    ensures var s := Weighed(t, existing, docs, order);
      r in Rows(s.byKey, key) <==> r.key == key && HeldBefore(t, existing, docs, order, |order|, s, r)
    decreases |order|
  {
    assert order[..|order|] == order;
    if order == [] {
      FirstHeld(t, docs, existing, key, r);
    } else {
      var init, d := order[..|order| - 1], order[|order| - 1];
      var st, s := Weighed(t, existing, docs, init), Weighed(t, existing, docs, order);
      assert order == init + [d] && init[..|init|] == init;
      HeldIs(t, existing, docs, init, key, r);
      NotYetTouched(t, existing, docs, init, d.id);
      WeighJoins(t, ById(existing), st, d);
      AddedRows(st.byKey, d, key, r);
      if r in init {
        WeighTouches(t, ById(existing), st, d, r.id);
        JoinsAlike(t, ById(existing), st, s, r);
      }
    }
  }

  /** What held a key when order[i] was weighed, by what became of everything. */
  lemma HeldWhenWeighed(t: Tests, existing: seq<Doc>, docs: seq<Doc>, order: seq<Doc>, i: nat, r: Doc)
    requires DifferentIds(docs) && Arranged(order, docs) && i < |order|
    ensures var st, s := Weighed(t, existing, docs, order[..i]), Weighed(t, existing, docs, order);
      r in Rows(st.byKey, order[i].key) <==>
        r.key == order[i].key && HeldBefore(t, existing, docs, order, i, s, r)
  {
    var st := Weighed(t, existing, docs, order[..i]);
    HeldIs(t, existing, docs, order[..i], order[i].key, r);
    assert order[..i][..i] == order[..i];
    if r in order[..i] {
      Stays(t, existing, docs, order, i, r.id);
      JoinsAlike(t, ById(existing), st, Weighed(t, existing, docs, order), r);
    }
  }

  // ----- the whole import -----

  /**
   * A new document is dropped exactly if a row of its key, held before it is weighed, is the same
   * document under another id and is a full copy, or waits as the new one does. Then it is a twin of
   * such a row, and of a full copy if there was one.
   */
  lemma DroppedIffCopyIsHeld(t: Tests, existing: seq<Doc>, docs: seq<Doc>, order: seq<Doc>, i: nat)
    requires DifferentIds(docs) && Arranged(order, docs) && i < |order| && order[i].id !in ById(existing)
    ensures var s, d := Weighed(t, existing, docs, order), order[i];
      && (d.id in s.dropped
          <==> exists r :: HeldBefore(t, existing, docs, order, i, s, r) && r.key == d.key && MayTake(t, r, d))
      && (d.id in s.dropped ==>
            d.id in s.alias
            && exists r :: HeldBefore(t, existing, docs, order, i, s, r) && r.key == d.key && MayTake(t, r, d)
                           && s.alias[d.id] == r.id)
  {
    var st, s, d := Weighed(t, existing, docs, order[..i]), Weighed(t, existing, docs, order), order[i];
    NotYetTouched(t, existing, docs, order[..i], d.id);
    NewIsDroppedIff(t, st, d);
    assert order[..i + 1][..i] == order[..i];
    Stays(t, existing, docs, order, i + 1, d.id);
    forall r ensures r in Rows(st.byKey, d.key)
                <==> r.key == d.key && HeldBefore(t, existing, docs, order, i, s, r) {
      HeldWhenWeighed(t, existing, docs, order, i, r);
    }
  }
}
