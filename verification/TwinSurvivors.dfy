/**
 * internal/legalcatalog/twins.go: the rows with look-alike keys, and where the new copies of one
 * document end.
 */
module TwinSurvivors {
  import opened Options
  import opened TwinAliases
  import opened TwinCompleteness
  import opened TwinResolution

  // ----- a catalogued row under a look-alike key -----

  lemma {:induction false} ExceptIs(rows: seq<Doc>, id: Id, r: Doc)
    ensures r in Except(rows, id) <==> r in rows && r.id != id
  {
    if rows != [] {
      assert rows == [rows[0]] + rows[1..];
      ExceptIs(rows[1..], id, r);
    }
  }

  lemma FoundAmongOthers(t: Tests, rows: seq<Doc>, d: Doc)
    ensures var s := SameIn(t, Except(rows, d.id), d);
      && (s.Some? <==> exists r :: r in rows && Copy(t, r, d))
      && (s.Some? ==> s.value in rows && Copy(t, s.value, d))
      && (s.Some? && Waits(t, s.value) ==> forall r :: r in rows && Copy(t, r, d) ==> Waits(t, r))
    ensures Except(rows, d.id) != [] <==> exists r :: r in rows && r.id != d.id
  {
    var holders := Except(rows, d.id);
    forall r ensures r in holders <==> r in rows && r.id != d.id {
      ExceptIs(rows, d.id, r);
    }
    assert holders != [] ==> holders[0] in holders;
    SameInIs(t, holders, d);
  }

  /** The imported row with its number and key of the catalogue. */
  function Old(d: Doc, cur: Doc): Doc {
    d.(number := cur.number, key := cur.key)
  }

  /** Every copy among the rows waits, and d does not. */
  ghost predicate Supersedes(t: Tests, rows: seq<Doc>, d: Doc) {
    !Waits(t, d) && forall r :: r in rows && Copy(t, r, d) ==> Waits(t, r)
  }

  /**
   * A catalogued row whose look-alike key folds to one that others hold. Without a copy among them it is
   * left unreachable if its key has an Eth, and else joins them. A full row whose copies all wait takes
   * their place. Any other is attached to a copy, a full one if there is one, and keeps its old number,
   * unless it was reviewed and that copy was not: then it joins the holders.
   */
  lemma LookalikeIsWeighed(t: Tests, st: State, d: Doc, cur: Doc)
    requires cur.key != d.key && t.fold(cur.key) == d.key != "" && KeysFit(st.byKey)
    requires exists r :: r in Rows(st.byKey, d.key) && r.id != d.id
    ensures var s, rows := WeighKnown(t, st, d, cur), Rows(st.byKey, d.key);
      if !(exists r :: r in rows && Copy(t, r, d)) then
        s.alias == st.alias
        && (if t.eth(cur.key) then
              s.unreachable == st.unreachable + [Twin(Old(d, cur), Ids(Except(rows, d.id)))]
              && s.byKey == st.byKey
            else s.unreachable == st.unreachable && s.byKey == Added(st.byKey, d))
      else if Supersedes(t, rows, d) then
        s.byKey == Added(st.byKey, d)
        && forall p :: p in rows && Copy(t, p, d) ==> p.id in s.alias && (p.id !in st.alias ==> s.alias[p.id] == d.id)
      else exists r :: r in rows && MayTake(t, r, d)
                       && (Waits(t, r) ==> forall q :: q in rows && Copy(t, q, d) ==> Waits(t, q))
                       && (if cur.reviewed && !r.reviewed then s == Join(st, d)
                           else AttachedTo(t, st, s, d, cur, r))
  {
    FoundAmongOthers(t, Rows(st.byKey, d.key), d);
    var s := SameIn(t, Except(Rows(st.byKey, d.key), d.id), d);
    if s.Some? && Waits(t, s.value) && !Waits(t, d) {
      ReplaceAdds(t, st, s.value, d);
    }
  }

  predicate AttachedTo(t: Tests, st: State, s: State, d: Doc, cur: Doc, r: Doc) {
    && s.alias == st.alias[d.id := r.id] && s.byKey == st.byKey && s.unreachable == st.unreachable
    && s.renumbered == st.renumbered[d.id := Old(d, cur)]
    && s.differs == st.differs + if t.trim(d.status) == t.trim(r.status) then [] else [Attached(d, r)]
  }

  // ----- the new copies of one document -----

  /** Being one document is the same, either way round, and carries on. */
  ghost predicate Agrees(t: Tests) {
    && (forall a :: t.same(a, a)) && (forall a, b :: t.same(a, b) ==> t.same(b, a))
    && (forall a, b, c :: t.same(a, b) && t.same(b, c) ==> t.same(a, c))
  }

  /** The first full row that is the same document, else the first that is. */
  function Head(t: Tests, rows: seq<Doc>, a: Doc): (h: Option<Doc>)
    ensures h.Some? ==> h.value in rows && t.same(h.value, a)
  {
    if rows == [] then None
    else
      var rest := Head(t, rows[1..], a);
      if !t.same(rows[0], a) then rest
      else if Waits(t, rows[0]) && rest.Some? && !Waits(t, rest.value) then rest
      else Some(rows[0])
  }

  lemma {:induction false} HeadIsFound(t: Tests, rows: seq<Doc>, d: Doc)
    requires forall r :: r in rows ==> r.id != d.id
    ensures SameIn(t, rows, d) == Head(t, rows, d)
  {
    if rows != [] { HeadIsFound(t, rows[1..], d); }
  }

  lemma {:induction false} HeadOfCopies(t: Tests, rows: seq<Doc>, a: Doc, b: Doc)
    requires Agrees(t) && t.same(a, b)
    ensures Head(t, rows, a) == Head(t, rows, b)
  {
    if rows != [] { HeadOfCopies(t, rows[1..], a, b); }
  }

  lemma {:induction false} HeadGrows(t: Tests, rows: seq<Doc>, e: Doc, a: Doc)
    ensures Head(t, rows + [e], a)
         == var h := Head(t, rows, a);
            if t.same(e, a) && (h.None? || (Waits(t, h.value) && !Waits(t, e))) then Some(e) else h
  {
    if rows == [] {
      assert [e][1..] == [];
    } else {
      assert (rows + [e])[1..] == rows[1..] + [e];
      HeadGrows(t, rows[1..], e, a);
    }
  }

  lemma {:induction false} WaitingHead(t: Tests, rows: seq<Doc>, a: Doc, r: Doc)
    requires r in rows && t.same(r, a)
    ensures Head(t, rows, a).Some? && (Waits(t, Head(t, rows, a).value) ==> Waits(t, r))
  {
    assert rows == [rows[0]] + rows[1..];
    if r in rows[1..] { WaitingHead(t, rows[1..], a, r); }
  }

  /** x leads to h in at most two steps. */
  predicate LeadsTo(alias: Aliases, x: Id, h: Id) {
    x == h || (x in alias && (alias[x] == h || (alias[x] in alias && alias[alias[x]] == h)))
  }

  /** A held twin survives as a full copy that holds the same key. */
  ghost predicate TakenByCopy(t: Tests, st: State) {
    forall key, p :: p in Rows(st.byKey, key) && p.id in st.alias ==>
      exists f :: f in Rows(st.byKey, key) && f.id == st.alias[p.id] && t.same(p, f) && !Waits(t, f)
  }

  /** Where a new document that was weighed ends: at the head of its copies, which is no twin. */
  ghost predicate Ends(t: Tests, st: State, a: Doc) {
    var h := Head(t, Rows(st.byKey, a.key), a);
    h.Some? && h.value.id !in st.alias && LeadsTo(st.alias, a.id, h.value.id)
  }

  /** New aliases are of copies that wait under the key of d, or of rows left unreachable. */
  ghost predicate AliasGrows(t: Tests, st: State, s: State, d: Doc) {
    && (forall id :: id in st.alias ==> id in s.alias && s.alias[id] == st.alias[id])
    && (forall id :: id in s.alias && id !in st.alias ==>
          s.alias[id] == d.id && (WaitingCopy(t, Rows(st.byKey, d.key), id, d) || Unreachable(st.unreachable, id)))
  }

  ghost predicate WaitingCopy(t: Tests, rows: seq<Doc>, id: Id, d: Doc) {
    !Waits(t, d) && exists p :: p in rows && p.id == id && Copy(t, p, d) && Waits(t, p)
  }

  predicate Unreachable(twins: seq<Twin>, id: Id) {
    exists u :: u in twins && u.row.id == id
  }

  lemma ReplaceGrows(t: Tests, st: State, w: Doc, d: Doc)
    requires w in Rows(st.byKey, d.key) && w.key == d.key && Copy(t, w, d) && Waits(t, w) && !Waits(t, d)
    ensures var s := Replace(t, st, w, d);
      AliasGrows(t, st, s, d) && s == st.(alias := s.alias, differs := s.differs)
  {
    ReplaceAdds(t, st, w, d);
  }

  lemma KeptGrows(t: Tests, st: State, d: Doc)
    requires KeysFit(st.byKey) && d.id !in st.dropped && d.id !in WeighNew(t, st, d).dropped
    ensures var s := WeighNew(t, st, d);
      AliasGrows(t, st, s, d) && s.byKey == if d.key == "" then st.byKey else Added(st.byKey, d)
  {
    var rows := Rows(st.byKey, d.key);
    var s := SameIn(t, rows, d);
    SameInIs(t, rows, d);
    var r := if s.Some? then Replace(t, st, s.value, d) else st;
    if s.Some? { ReplaceGrows(t, st, s.value, d); }
    ReachAdds(t, r.(unreachable := []), r.unreachable, d);
  }

  lemma HoldingFits(byKey: Index, rows: map<Id, Doc>)
    requires Holding(byKey, rows)
    ensures KeysFit(byKey)
    ensures forall key, r :: r in Rows(byKey, key) ==> r.id in rows && rows[r.id] == r
  {
  }

  /** Held rows with one id are one row. */
  lemma OneRow(byKey: Index, rows: map<Id, Doc>, k: string, p: Doc, l: string, q: Doc)
    requires Holding(byKey, rows) && p in Rows(byKey, k) && q in Rows(byKey, l) && p.id == q.id
    ensures p == q && k == l
  {
  }

  /** With new aliases of this kind, and d held, a held twin still survives as a full copy of its key. */
  lemma GrownStaysTaken(t: Tests, rows: map<Id, Doc>, done: set<Id>, st: State, s: State, d: Doc)
    requires Holding(st.byKey, rows) && AliasSound(t, st.alias, rows, done) && LeftSound(t, st.unreachable, rows, done)
    requires d.id !in rows && d.id !in done && TakenByCopy(t, st)
    requires AliasGrows(t, st, s, d) && s.byKey == if d.key == "" then st.byKey else Added(st.byKey, d)
    ensures TakenByCopy(t, s) && d.id !in s.alias
  {
    HoldingFits(st.byKey, rows);
    assert d.id !in s.alias;
    forall key, p | p in Rows(s.byKey, key) && p.id in s.alias
      ensures exists f :: f in Rows(s.byKey, key) && f.id == s.alias[p.id] && t.same(p, f) && !Waits(t, f)
    {
      assert p in Rows(st.byKey, key);
      if p.id in st.alias {
        var f :| f in Rows(st.byKey, key) && f.id == st.alias[p.id] && t.same(p, f) && !Waits(t, f);
        assert f in Rows(s.byKey, key);
      } else {
        var q :| q in Rows(st.byKey, d.key) && q.id == p.id && Copy(t, q, d) && Waits(t, q);
        OneRow(st.byKey, rows, key, p, d.key, q);
        assert d in Rows(s.byKey, key);
      }
    }
  }

  /** Attaching a row that holds no key changes nothing for those that do. */
  lemma AttachedStaysTaken(t: Tests, rows: map<Id, Doc>, st: State, s: State, id: Id)
    requires Holding(st.byKey, rows) && id !in rows && TakenByCopy(t, st) && s.byKey == st.byKey
    requires forall x :: x != id ==> SameAlias(st.alias, s.alias, x)
    ensures TakenByCopy(t, s)
  {
    HoldingFits(st.byKey, rows);
    forall key, p | p in Rows(s.byKey, key) && p.id in s.alias
      ensures exists f :: f in Rows(s.byKey, key) && f.id == s.alias[p.id] && t.same(p, f) && !Waits(t, f)
    {
      assert p.id in rows && p.id != id && SameAlias(st.alias, s.alias, p.id);
      var f :| f in Rows(st.byKey, key) && f.id == st.alias[p.id] && t.same(p, f) && !Waits(t, f);
    }
  }

  lemma DroppedAttaches(t: Tests, st: State, d: Doc)
    requires d.id !in st.dropped && d.id in WeighNew(t, st, d).dropped
    ensures var s := WeighNew(t, st, d);
      s.byKey == st.byKey && d.id in s.alias && s.alias == st.alias[d.id := s.alias[d.id]]
  {
    var s := SameIn(t, Rows(st.byKey, d.key), d);
    if !(s.Some? && (!Waits(t, s.value) || Waits(t, d))) {
      var r := if s.Some? then Replace(t, st, s.value, d) else st;
      if s.Some? { FoundReplaces(t, st, s.value, d); }
      ReachAdds(t, r.(unreachable := []), r.unreachable, d);
    }
  }

  /** A document that is dropped is reported exactly if its status is not its survivor's. */
  lemma DroppedIsReported(t: Tests, st: State, d: Doc)
    requires d.id !in st.dropped && d.id in WeighNew(t, st, d).dropped
    ensures var s := WeighNew(t, st, d);
      exists r :: r in Rows(st.byKey, d.key) && MayTake(t, r, d) && d.id in s.alias && r.id == s.alias[d.id]
                  && s.differs == st.differs + if t.trim(d.status) == t.trim(r.status) then [] else [Attached(d, r)]
  {
    DroppedAttaches(t, st, d);
    NewIsDroppedIff(t, st, d);
    SameInIs(t, Rows(st.byKey, d.key), d);
    var s := SameIn(t, Rows(st.byKey, d.key), d);
    var r := if s.Some? then Replace(t, st, s.value, d) else st;
    if s.Some? { FoundReplaces(t, st, s.value, d); }
    ReachAdds(t, r.(unreachable := []), r.unreachable, d);
    assert st.differs + [] == st.differs;
  }

  lemma NewStaysTaken(t: Tests, cats: map<Id, Doc>, incoming: map<Id, Doc>, rows: map<Id, Doc>, done: set<Id>,
                      st: State, d: Doc)
    requires Sound(t, cats, incoming, rows, done, st) && Unweighed(rows, incoming, done, d) && TakenByCopy(t, st)
    ensures TakenByCopy(t, WeighNew(t, st, d))
  {
    var s := WeighNew(t, st, d);
    HoldingFits(st.byKey, rows);
    MayJoin(t, cats, incoming, rows, done, st, d);
    if d.id in s.dropped {
      DroppedAttaches(t, st, d);
      AttachedStaysTaken(t, rows, st, s, d.id);
    } else {
      KeptGrows(t, st, d);
      GrownStaysTaken(t, rows, done, st, s, d);
    }
  }

  /** What a look-alike row does to the rest, by its four outcomes. */
  lemma LookalikeOutcomes(t: Tests, st: State, d: Doc, cur: Doc)
    requires KeysFit(st.byKey)
    ensures var s := WeighLookalike(t, st, d, cur, Except(Rows(st.byKey, d.key), d.id));
      || (s.byKey == st.byKey && forall x :: x != d.id ==> SameAlias(st.alias, s.alias, x))
      || (AliasGrows(t, st, s, d) && s.byKey == if d.key == "" then st.byKey else Added(st.byKey, d))
  {
    FoundAmongOthers(t, Rows(st.byKey, d.key), d);
    var found := SameIn(t, Except(Rows(st.byKey, d.key), d.id), d);
    if found.Some? && Waits(t, found.value) && !Waits(t, d) { ReplaceGrows(t, st, found.value, d); }
  }

  predicate SameAlias(a: Aliases, b: Aliases, x: Id) {
    (x in a <==> x in b) && (x in a ==> a[x] == b[x])
  }

  lemma LookalikeStaysTaken(t: Tests, rows: map<Id, Doc>, done: set<Id>, st: State, d: Doc, cur: Doc)
    requires Holding(st.byKey, rows) && AliasSound(t, st.alias, rows, done) && LeftSound(t, st.unreachable, rows, done)
    requires d.id !in rows && d.id !in done && TakenByCopy(t, st)
    ensures TakenByCopy(t, WeighLookalike(t, st, d, cur, Except(Rows(st.byKey, d.key), d.id)))
  {
    var s := WeighLookalike(t, st, d, cur, Except(Rows(st.byKey, d.key), d.id));
    HoldingFits(st.byKey, rows);
    LookalikeOutcomes(t, st, d, cur);
    if s.byKey == st.byKey && forall x :: x != d.id ==> SameAlias(st.alias, s.alias, x) {
      AttachedStaysTaken(t, rows, st, s, d.id);
    } else {
      GrownStaysTaken(t, rows, done, st, s, d);
    }
  }

  lemma KnownStaysTaken(t: Tests, rows: map<Id, Doc>, done: set<Id>, st: State, d: Doc, cur: Doc)
    requires Holding(st.byKey, rows) && AliasSound(t, st.alias, rows, done) && LeftSound(t, st.unreachable, rows, done)
    requires d.id !in rows && d.id !in done && TakenByCopy(t, st)
    ensures TakenByCopy(t, WeighKnown(t, st, d, cur))
  {
    var s := WeighKnown(t, st, d, cur);
    if cur.key != d.key && t.fold(cur.key) == d.key && Except(Rows(st.byKey, d.key), d.id) != [] {
      LookalikeStaysTaken(t, rows, done, st, d, cur);
    } else if s != st {
      GrownStaysTaken(t, rows, done, st, s, d);
    }
  }

  lemma WeighStaysTaken(t: Tests, cats: map<Id, Doc>, incoming: map<Id, Doc>, rows: map<Id, Doc>, done: set<Id>,
                        st: State, d: Doc)
    requires Sound(t, cats, incoming, rows, done, st) && TakenByCopy(t, st)
    requires d.id in incoming && incoming[d.id] == d && d.id !in done
    ensures TakenByCopy(t, Weigh(t, cats, st, d))
  {
    if d.id in rows {
      assert Settled(t, cats, incoming, d.id);
    } else if d.id in cats {
      KnownStaysTaken(t, rows, done, st, d, cats[d.id]);
    } else {
      NewStaysTaken(t, cats, incoming, rows, done, st, d);
    }
  }

  // ----- the head of the copies -----

  /** The head is no twin: a full row never is, and one that waits would have a full copy before it. */
  lemma HeadIsNoTwin(t: Tests, rows: map<Id, Doc>, done: set<Id>, st: State, a: Doc)
    requires Agrees(t) && Holding(st.byKey, rows) && AliasSound(t, st.alias, rows, done) && TakenByCopy(t, st)
    requires Head(t, Rows(st.byKey, a.key), a).Some?
    ensures Head(t, Rows(st.byKey, a.key), a).value.id !in st.alias
  {
    var held := Rows(st.byKey, a.key);
    var h := Head(t, held, a).value;
    HoldingFits(st.byKey, rows);
    if h.id in st.alias && Waits(t, h) {
      var f :| f in held && f.id == st.alias[h.id] && t.same(h, f) && !Waits(t, f);
      assert t.same(f, h) && t.same(f, a);
      WaitingHead(t, held, a, f);
    }
  }

  lemma NewEnds(t: Tests, cats: map<Id, Doc>, incoming: map<Id, Doc>, rows: map<Id, Doc>, done: set<Id>, st: State,
                d: Doc)
    requires Agrees(t) && Sound(t, cats, incoming, rows, done, st) && TakenByCopy(t, st)
    requires Unweighed(rows, incoming, done, d) && d.key != ""
    ensures Ends(t, WeighNew(t, st, d), d)
  {
    var s, held := WeighNew(t, st, d), Rows(st.byKey, d.key);
    HoldingFits(st.byKey, rows);
    MayJoin(t, cats, incoming, rows, done, st, d);
    HeadIsFound(t, held, d);
    var h := SameIn(t, held, d);
    if h.Some? && (!Waits(t, h.value) || Waits(t, d)) {
      HeadIsNoTwin(t, rows, done, st, d);
    } else {
      NewIsDroppedIff(t, st, d);
      SameInIs(t, held, d);
      KeptGrows(t, st, d);
      GrownStaysTaken(t, rows, done, st, s, d);
      HeadGrows(t, held, d, d);
    }
  }

  lemma DroppedEnds(t: Tests, cats: map<Id, Doc>, incoming: map<Id, Doc>, rows: map<Id, Doc>, done: set<Id>, st: State,
                    d: Doc, a: Doc)
    requires Sound(t, cats, incoming, rows, done, st) && Unweighed(rows, incoming, done, d)
    requires d.id in WeighNew(t, st, d).dropped && a.id != d.id && Ends(t, st, a)
    ensures Ends(t, WeighNew(t, st, d), a)
  {
    HoldingFits(st.byKey, rows);
    MayJoin(t, cats, incoming, rows, done, st, d);
    DroppedAttaches(t, st, d);
    var h := Head(t, Rows(st.byKey, a.key), a).value;
    assert h.id in rows && h.id != d.id;
  }

  /** The head of other documents stays, and is no twin. */
  lemma OtherEnds(t: Tests, rows: map<Id, Doc>, st: State, s: State, d: Doc, a: Doc, done: set<Id>)
    requires Agrees(t) && Holding(st.byKey, rows) && LeftSound(t, st.unreachable, rows, done)
    requires AliasGrows(t, st, s, d) && s.byKey == (if d.key == "" then st.byKey else Added(st.byKey, d))
    requires Ends(t, st, a) && !(a.key == d.key && t.same(a, d))
    ensures Ends(t, s, a)
  {
    var held := Rows(st.byKey, a.key);
    var h := Head(t, held, a).value;
    HoldingFits(st.byKey, rows);
    if a.key == d.key && d.key != "" {
      HeadGrows(t, held, d, a);
      assert !t.same(d, a);
    }
    forall q | q in Rows(st.byKey, d.key) && q.id == h.id ensures a.key == d.key && q == h {
      OneRow(st.byKey, rows, a.key, h, d.key, q);
    }
    assert t.same(a, h);
    assert t.same(h, d) ==> t.same(a, d);
  }

  /** The copies of a new document that is kept end at it from now on. */
  lemma CopyEnds(t: Tests, cats: map<Id, Doc>, incoming: map<Id, Doc>, rows: map<Id, Doc>, done: set<Id>, st: State,
                 d: Doc, a: Doc)
    requires Agrees(t) && Sound(t, cats, incoming, rows, done, st) && TakenByCopy(t, st)
    requires Unweighed(rows, incoming, done, d) && d.id !in WeighNew(t, st, d).dropped
    requires Ends(t, st, a) && a.key == d.key != "" && t.same(a, d)
    ensures Ends(t, WeighNew(t, st, d), a)
  {
    var s, held := WeighNew(t, st, d), Rows(st.byKey, d.key);
    var h := Head(t, held, a).value;
    HoldingFits(st.byKey, rows);
    MayJoin(t, cats, incoming, rows, done, st, d);
    HeadOfCopies(t, held, a, d);
    HeadIsFound(t, held, d);
    HeadGrows(t, held, d, a);
    KeptGrows(t, st, d);
    GrownStaysTaken(t, rows, done, st, s, d);
    NewReplacesWaiting(t, st, d);
    assert t.same(d, a);
  }

  // ----- the whole import -----

  lemma {:induction false} AllStayTaken(t: Tests, existing: seq<Doc>, docs: seq<Doc>, order: seq<Doc>)
    requires DifferentIds(existing) && DifferentIds(docs) && Arranged(order, docs)
    ensures TakenByCopy(t, Weighed(t, existing, docs, order))
  {
    if order != [] {
      var init, d := order[..|order| - 1], order[|order| - 1];
      assert order == init + [d];
      AllStayTaken(t, existing, docs, init);
      var rows := AllIsSound(t, existing, docs, init);
      ByIdIs(docs);
      NewId(order);
      WeighStaysTaken(t, ById(existing), ById(docs), rows, ById(init).Keys, Weighed(t, existing, docs, init), d);
    }
  }

  /** One more new document. */
  lemma OneMoreEnds(t: Tests, existing: seq<Doc>, docs: seq<Doc>, order: seq<Doc>, d: Doc, a: Doc)
    requires DifferentIds(existing) && DifferentIds(docs) && Arranged(order + [d], docs) && Agrees(t)
    requires d.id !in ById(existing) && a.key != ""
    requires a == d || (a.id != d.id && Ends(t, Weighed(t, existing, docs, order), a))
    ensures Ends(t, WeighNew(t, Weighed(t, existing, docs, order), d), a)
  {
    var all, st := order + [d], Weighed(t, existing, docs, order);
    assert all[..|order|] == order;
    forall i, j | 0 <= i < j < |order| ensures order[i].id != order[j].id {
      assert all[i] == order[i] && all[j] == order[j];
    }
    forall e | e in order ensures e in docs {
      assert e in all;
    }
    assert d in all;
    var rows := AllIsSound(t, existing, docs, order);
    AllStayTaken(t, existing, docs, order);
    ByIdIs(docs);
    NewId(all);
    var cats, incoming, done := ById(existing), ById(docs), ById(order).Keys;
    if a == d {
      NewEnds(t, cats, incoming, rows, done, st, d);
    } else if d.id in WeighNew(t, st, d).dropped {
      DroppedEnds(t, cats, incoming, rows, done, st, d, a);
    } else if a.key == d.key && t.same(a, d) {
      CopyEnds(t, cats, incoming, rows, done, st, d, a);
    } else {
      HoldingFits(st.byKey, rows);
      MayJoin(t, cats, incoming, rows, done, st, d);
      KeptGrows(t, st, d);
      OtherEnds(t, rows, st, WeighNew(t, st, d), d, a, done);
    }
  }

  /** Every new document ends at the head of its copies: the first full one, else the first of them. */
  lemma {:induction false} NewOnesEnd(t: Tests, existing: seq<Doc>, docs: seq<Doc>, order: seq<Doc>, a: Doc)
    requires DifferentIds(existing) && DifferentIds(docs) && Arranged(order, docs) && Agrees(t)
    requires CataloguedFirst(ById(existing), order)
    requires a in order && a.id !in ById(existing) && a.key != ""
    ensures Ends(t, Weighed(t, existing, docs, order), a)
    decreases |order|
  {
    var init, d := order[..|order| - 1], order[|order| - 1];
    assert order == init + [d];
    if a != d {
      var i :| 0 <= i < |init| && init[i] == a;
      assert order[i] == a;
      NewOnesEnd(t, existing, docs, init, a);
    }
    OneMoreEnds(t, existing, docs, init, d, a);
  }

  lemma EndIsSurvivor(alias: Aliases, x: Id, h: Id)
    requires LeadsTo(alias, x, h) && h !in alias
    ensures SurvivorOf(alias, x) == h
  {
    TwoSteps(alias, x);
  }

  /**
   * Two new documents of one key that are the same document have one survivor, whatever else comes with
   * them, as long as being the same document agrees with itself and catalogued rows are weighed first.
   */
  lemma CopiesMeet(t: Tests, existing: seq<Doc>, docs: seq<Doc>, order: seq<Doc>, a: Doc, b: Doc)
    requires DifferentIds(existing) && DifferentIds(docs) && Arranged(order, docs) && Agrees(t)
    requires CataloguedFirst(ById(existing), order)
    requires a in order && b in order && a.id !in ById(existing) && b.id !in ById(existing)
    requires a.key == b.key != "" && t.same(a, b)
    ensures var alias := Weighed(t, existing, docs, order).alias;
      SurvivorOf(alias, a.id) == SurvivorOf(alias, b.id)
  {
    var st := Weighed(t, existing, docs, order);
    NewOnesEnd(t, existing, docs, order, a);
    NewOnesEnd(t, existing, docs, order, b);
    HeadOfCopies(t, Rows(st.byKey, a.key), a, b);
    var h := Head(t, Rows(st.byKey, a.key), a).value;
    EndIsSurvivor(st.alias, a.id, h.id);
    EndIsSurvivor(st.alias, b.id, h.id);
  }

  lemma HeldIsNotWeighedLater(t: Tests, existing: seq<Doc>, docs: seq<Doc>, order: seq<Doc>, i: nat, s: State, p: Doc,
                              j: nat)
    requires DifferentIds(existing) && DifferentIds(docs) && Arranged(order, docs)
    requires CataloguedFirst(ById(existing), order)
    requires i < j < |order| && order[i].id !in ById(existing) && HeldBefore(t, existing, docs, order, i, s, p)
    ensures order[j].id != p.id
  {
    ByIdIs(existing);
    if p in order[..i] {
      var n :| 0 <= n < i && order[..i][n] == p;
      assert order[n] == p;
    } else if p in existing {
      assert p.id in ById(existing);
    } else {
      var e :| e in existing && e.id == p.id && e.key == p.key && !e.reviewed;
      assert e.id in ById(existing);
    }
  }

  /**
   * A row that waits for its text gets a survivor with the first new copy of it that is kept: when one is
   * weighed and not dropped, every row of its key that waits and is the same document is a twin.
   */
  lemma WaitingRowsAreTaken(t: Tests, existing: seq<Doc>, docs: seq<Doc>, order: seq<Doc>, i: nat, p: Doc)
    requires DifferentIds(existing) && DifferentIds(docs) && Arranged(order, docs)
    requires CataloguedFirst(ById(existing), order) && i < |order| && order[i].id !in ById(existing)
    requires var s := Weighed(t, existing, docs, order);
      order[i].id !in s.dropped && HeldBefore(t, existing, docs, order, i, s, p)
    requires p.key == order[i].key && Copy(t, p, order[i]) && Waits(t, p)
    ensures p.id in Weighed(t, existing, docs, order).alias
  {
    var st, s, d := Weighed(t, existing, docs, order[..i]), Weighed(t, existing, docs, order), order[i];
    HeldWhenWeighed(t, existing, docs, order, i, p);
    NotYetTouched(t, existing, docs, order[..i], d.id);
    KeysOfPrefix(t, existing, docs, order, i);
    assert order[..i + 1][..i] == order[..i];
    Stays(t, existing, docs, order, i + 1, d.id);
    NewReplacesWaiting(t, st, d);
    forall j | i + 1 <= j < |order| ensures order[j].id != p.id {
      HeldIsNotWeighedLater(t, existing, docs, order, i, s, p, j);
    }
    Stays(t, existing, docs, order, i + 1, p.id);
  }

  lemma KeysOfPrefix(t: Tests, existing: seq<Doc>, docs: seq<Doc>, order: seq<Doc>, i: nat)
    requires DifferentIds(existing) && DifferentIds(docs) && Arranged(order, docs) && i <= |order|
    ensures KeysFit(Weighed(t, existing, docs, order[..i]).byKey)
  {
    var rows := AllIsSound(t, existing, docs, order[..i]);
    HoldingFits(Weighed(t, existing, docs, order[..i]).byKey, rows);
  }

  /** A full row that holds its key stays what it is: two of them in the catalogue are not brought together. */
  lemma FullHoldersStay(t: Tests, existing: seq<Doc>, docs: seq<Doc>, order: seq<Doc>, r: Doc)
    requires DifferentIds(existing) && DifferentIds(docs) && Arranged(order, docs)
    requires FirstHolder(t, existing, docs, r) && !Waits(t, r)
    ensures r.id !in Weighed(t, existing, docs, order).alias
  {
    var rows := AllIsSound(t, existing, docs, order);
    HeldIs(t, existing, docs, order, r.key, r);
    HoldingFits(Weighed(t, existing, docs, order).byKey, rows);
  }
}
