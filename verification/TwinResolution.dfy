/**
 * Resolving the twins of an import against the catalogue: which imported documents are another row
 * under a second id, which catalogued rows are, and which row survives. The chains of twins that come
 * out are at most two steps long.
 */
module TwinResolution {
  import opened Options
  import opened StringOrder
  import opened TwinAliases
  import Batches
  import Sorting

  /** A row of the catalogue or of the import; `rest` stands for the other fields. */
  datatype Doc = Doc(id: Id, number: string, key: string, title: string, status: string, reviewed: bool, rest: string)

  /** The tests on texts: one document under two ids, waiting for its text, folded key, an Eth in it. */
  datatype Tests = Tests(same: (Doc, Doc) -> bool, placeholder: string -> bool, fold: string -> string,
                         eth: string -> bool, trim: string -> string)

  /** A catalogued row left under its look-alike key, and the rows that hold the folded one. */
  datatype Twin = Twin(row: Doc, holders: seq<Id>)

  datatype Attached = Attached(twin: Doc, survivor: Doc)

  type Index = map<string, seq<Doc>>

  datatype State = State(byKey: Index, alias: Aliases, unreachable: seq<Twin>, differs: seq<Attached>,
                         dropped: set<Id>, renumbered: map<Id, Doc>)

  predicate Waits(t: Tests, d: Doc) {
    t.placeholder(d.title)
  }

  function Rows(byKey: Index, key: string): seq<Doc> {
    if key in byKey then byKey[key] else []
  }

  function Added(byKey: Index, d: Doc): Index {
    byKey[d.key := Rows(byKey, d.key) + [d]]
  }

  function ById(docs: seq<Doc>): map<Id, Doc> {
    if docs == [] then map[] else ById(docs[..|docs| - 1])[docs[|docs| - 1].id := docs[|docs| - 1]]
  }

  // ----- the rows that hold their key before the import is weighed -----

  /** The row that stands for a catalogued one: itself, or its import unless it was reviewed. */
  function Holder(t: Tests, incoming: map<Id, Doc>, e: Doc): Option<Doc> {
    if e.key == "" || t.fold(e.key) != e.key then None
    else if e.id in incoming && !e.reviewed then (if incoming[e.id].key == e.key then Some(incoming[e.id]) else None)
    else Some(e)
  }

  function Indexed(t: Tests, incoming: map<Id, Doc>, existing: seq<Doc>): Index {
    if existing == [] then map[]
    else
      var before := Indexed(t, incoming, existing[..|existing| - 1]);
      match Holder(t, incoming, existing[|existing| - 1])
      case None => before
      case Some(d) => Added(before, d)
  }

  // ----- weighing one document -----

  /** The first of the rows that is d under another id, a full copy before one that waits for its text. */
  function SameIn(t: Tests, rows: seq<Doc>, d: Doc): (s: Option<Doc>)
    ensures s.Some? ==> s.value in rows && s.value.id != d.id && t.same(s.value, d)
  {
    if rows == [] then None
    else
      var rest := SameIn(t, rows[1..], d);
      if rows[0].id == d.id || !t.same(rows[0], d) then rest
      else if Waits(t, rows[0]) && rest.Some? && !Waits(t, rest.value) then rest
      else Some(rows[0])
  }

  function Attach(t: Tests, st: State, twin: Doc, survivor: Doc): State {
    st.(alias := st.alias[twin.id := survivor.id],
        differs := if t.trim(twin.status) != t.trim(survivor.status) then st.differs + [Attached(twin, survivor)]
                   else st.differs)
  }

  function ReplaceIn(t: Tests, st: State, rows: seq<Doc>, full: Doc): State
    decreases rows
  {
    if rows == [] then st
    else
      var p := rows[0];
      var s := if p.id !in st.alias && p.id != full.id && Waits(t, p) && t.same(p, full) then Attach(t, st, p, full)
               else st;
      ReplaceIn(t, s, rows[1..], full)
  }

  /** The full copy takes the place of a row that waits for its text, and of every other one that does. */
  function Replace(t: Tests, st: State, waiting: Doc, full: Doc): State {
    ReplaceIn(t, if waiting.id in st.alias then st else Attach(t, st, waiting, full),
              Rows(st.byKey, waiting.key), full)
  }

  /** Rows left unreachable are attached to a new copy of theirs. */
  function Reach(t: Tests, st: State, twins: seq<Twin>, d: Doc): State
    decreases twins
  {
    if twins == [] then st
    else
      var u := twins[0];
      if u.row.id !in st.alias && t.fold(u.row.key) == d.key && t.same(u.row, d)
      then Reach(t, Attach(t, st, u.row, d), twins[1..], d)
      else Reach(t, st.(unreachable := st.unreachable + [u]), twins[1..], d)
  }

  function Join(st: State, d: Doc): State {
    if d.key == "" then st else st.(byKey := Added(st.byKey, d))
  }

  function WeighNew(t: Tests, st: State, d: Doc): State {
    var s := SameIn(t, Rows(st.byKey, d.key), d);
    if s.Some? && (!Waits(t, s.value) || Waits(t, d)) then
      Attach(t, st, d, s.value).(dropped := st.dropped + {d.id})
    else
      var r := if s.Some? then Replace(t, st, s.value, d) else st;
      Join(Reach(t, r.(unreachable := []), r.unreachable, d), d)
  }

  function Except(rows: seq<Doc>, id: Id): seq<Doc> {
    if rows == [] then [] else (if rows[0].id == id then [] else [rows[0]]) + Except(rows[1..], id)
  }

  function Ids(rows: seq<Doc>): seq<Id> {
    seq(|rows|, i requires 0 <= i < |rows| => rows[i].id)
  }

  /** The imported row with the number it has in the catalogue. */
  function Renumbered(d: Doc, cur: Doc): Doc {
    d.(number := cur.number, key := cur.key)
  }

  /** A catalogued row under a look-alike key, whose folded key other rows hold. */
  function WeighLookalike(t: Tests, st: State, d: Doc, cur: Doc, holders: seq<Doc>): State {
    var s := SameIn(t, holders, d);
    var replaced := s.Some? && Waits(t, s.value) && !Waits(t, d);
    var back := Renumbered(d, cur);
    if s.Some? && (!cur.reviewed || s.value.reviewed) && !replaced then
      Attach(t, st, d, s.value).(renumbered := st.renumbered[d.id := back])
    else if replaced then Join(Replace(t, st, s.value, d), d)
    else if s.None? && t.eth(cur.key) then
      st.(unreachable := st.unreachable + [Twin(back, Ids(holders))], renumbered := st.renumbered[d.id := back])
    else Join(st, d)
  }

  function WeighKnown(t: Tests, st: State, d: Doc, cur: Doc): State {
    if cur.key == d.key then st
    else if t.fold(cur.key) == d.key then
      var holders := Except(Rows(st.byKey, d.key), d.id);
      if holders == [] then Join(st, d) else WeighLookalike(t, st, d, cur, holders)
    else if cur.reviewed then st
    else Join(st, d)
  }

  function Weigh(t: Tests, cats: map<Id, Doc>, st: State, d: Doc): State {
    if d.id in cats then WeighKnown(t, st, d, cats[d.id]) else WeighNew(t, st, d)
  }

  function Weighed(t: Tests, existing: seq<Doc>, docs: seq<Doc>, order: seq<Doc>): State {
    if order == [] then State(Indexed(t, ById(docs), existing), map[], [], [], {}, map[])
    else Weigh(t, ById(existing), Weighed(t, existing, docs, order[..|order| - 1]), order[|order| - 1])
  }

  /** The import without the documents dropped, some of them with their old number. */
  function Kept(docs: seq<Doc>, dropped: set<Id>, renumbered: map<Id, Doc>): seq<Doc> {
    if docs == [] then []
    else
      var before, d := Kept(docs[..|docs| - 1], dropped, renumbered), docs[|docs| - 1];
      if d.id in dropped then before else before + [if d.id in renumbered then renumbered[d.id] else d]
  }

  // ----- what weighing keeps -----

  predicate DifferentIds(docs: seq<Doc>) {
    forall i, j :: 0 <= i < j < |docs| ==> docs[i].id != docs[j].id
  }

  /** Everything held under a key is one of `rows`, which has one row for an id. */
  ghost predicate Holding(byKey: Index, rows: map<Id, Doc>) {
    forall key, r :: r in Rows(byKey, key) ==> r.key == key && key != "" && r.id in rows && rows[r.id] == r
  }

  /**
   * A twin that holds a key waits for its text, and its survivor is a full copy; the survivor of any
   * twin holds a key; a twin that holds none was weighed before.
   */
  ghost predicate AliasSound(t: Tests, alias: Aliases, rows: map<Id, Doc>, done: set<Id>) {
    forall id :: id in alias ==>
      && alias[id] != id && alias[id] in rows
      && (if id in rows then Waits(t, rows[id]) && !Waits(t, rows[alias[id]]) else id in done)
  }

  /** Rows left unreachable were weighed, hold no key, and fold to one. */
  ghost predicate LeftSound(t: Tests, twins: seq<Twin>, rows: map<Id, Doc>, done: set<Id>) {
    forall i :: 0 <= i < |twins| ==>
      twins[i].row.id in done && twins[i].row.id !in rows && t.fold(twins[i].row.key) != ""
  }

  /** A document that holds a key before it is weighed has it in the catalogue, and keeps it. */
  predicate Settled(t: Tests, cats: map<Id, Doc>, incoming: map<Id, Doc>, id: Id) {
    id in incoming && id in cats && t.fold(cats[id].key) == cats[id].key
    && (cats[id].key == incoming[id].key || cats[id].reviewed)
  }

  ghost predicate RowsSound(t: Tests, cats: map<Id, Doc>, incoming: map<Id, Doc>, rows: map<Id, Doc>, done: set<Id>) {
    forall id :: id in rows ==>
      (id in cats || id in incoming) && (id in incoming && id !in done ==> Settled(t, cats, incoming, id))
  }

  ghost predicate Sound(t: Tests, cats: map<Id, Doc>, incoming: map<Id, Doc>, rows: map<Id, Doc>, done: set<Id>,
                        st: State) {
    && Holding(st.byKey, rows)
    && AliasSound(t, st.alias, rows, done)
    && LeftSound(t, st.unreachable, rows, done)
    && RowsSound(t, cats, incoming, rows, done)
    && (forall id :: id in st.dropped ==> id in st.alias && id !in rows && id !in cats)
  }

  lemma AttachKeeps(t: Tests, st: State, twin: Doc, survivor: Doc, rows: map<Id, Doc>, done: set<Id>)
    requires AliasSound(t, st.alias, rows, done)
    requires survivor.id in rows && survivor.id != twin.id
    requires if twin.id in rows then Waits(t, rows[twin.id]) && !Waits(t, rows[survivor.id]) else twin.id in done
    ensures AliasSound(t, Attach(t, st, twin, survivor).alias, rows, done)
  {
  }

  lemma {:induction false} ReplaceInKeeps(t: Tests, st: State, those: seq<Doc>, full: Doc, rows: map<Id, Doc>,
                                          done: set<Id>)
    requires AliasSound(t, st.alias, rows, done)
    requires full.id in rows && !Waits(t, rows[full.id])
    requires forall r :: r in those ==> r.id in rows && rows[r.id] == r
    ensures var s := ReplaceIn(t, st, those, full);
      && AliasSound(t, s.alias, rows, done) && s == st.(alias := s.alias, differs := s.differs)
      && st.alias.Keys <= s.alias.Keys
    decreases those
  {
    if those != [] {
      var p := those[0];
      if p.id !in st.alias && p.id != full.id && Waits(t, p) && t.same(p, full) {
        AttachKeeps(t, st, p, full, rows, done);
        ReplaceInKeeps(t, Attach(t, st, p, full), those[1..], full, rows, done);
      } else {
        ReplaceInKeeps(t, st, those[1..], full, rows, done);
      }
    }
  }

  lemma ReplaceKeeps(t: Tests, st: State, waiting: Doc, full: Doc, rows: map<Id, Doc>, done: set<Id>)
    requires AliasSound(t, st.alias, rows, done) && Holding(st.byKey, rows)
    requires full.id in rows && !Waits(t, rows[full.id])
    requires waiting.id in rows && rows[waiting.id] == waiting && Waits(t, waiting) && waiting.id != full.id
    ensures var s := Replace(t, st, waiting, full);
      && AliasSound(t, s.alias, rows, done) && s == st.(alias := s.alias, differs := s.differs)
      && st.alias.Keys <= s.alias.Keys
  {
    var a := if waiting.id in st.alias then st else Attach(t, st, waiting, full);
    if waiting.id !in st.alias { AttachKeeps(t, st, waiting, full, rows, done); }
    ReplaceInKeeps(t, a, Rows(st.byKey, waiting.key), full, rows, done);
  }

  lemma {:induction false} ReachKeeps(t: Tests, st: State, twins: seq<Twin>, d: Doc, rows: map<Id, Doc>, done: set<Id>)
    requires AliasSound(t, st.alias, rows, done) && LeftSound(t, st.unreachable, rows, done)
    requires LeftSound(t, twins, rows, done) && d.id in rows
    ensures var s := Reach(t, st, twins, d);
      && AliasSound(t, s.alias, rows, done) && LeftSound(t, s.unreachable, rows, done)
      && s == st.(alias := s.alias, differs := s.differs, unreachable := s.unreachable)
      && st.alias.Keys <= s.alias.Keys
    decreases twins
  {
    if twins != [] {
      var u := twins[0];
      assert LeftSound(t, twins[1..], rows, done) by {
        forall i | 0 <= i < |twins[1..]|
          ensures twins[1..][i].row.id in done && twins[1..][i].row.id !in rows && t.fold(twins[1..][i].row.key) != ""
        {
          assert twins[1..][i] == twins[i + 1];
        }
      }
      if u.row.id !in st.alias && t.fold(u.row.key) == d.key && t.same(u.row, d) {
        AttachKeeps(t, st, u.row, d, rows, done);
        ReachKeeps(t, Attach(t, st, u.row, d), twins[1..], d, rows, done);
      } else {
        ReachKeeps(t, st.(unreachable := st.unreachable + [u]), twins[1..], d, rows, done);
      }
    }
  }

  /** A document that holds no key yet is about to be weighed. */
  ghost predicate Unweighed(rows: map<Id, Doc>, incoming: map<Id, Doc>, done: set<Id>, d: Doc) {
    d.id in incoming && incoming[d.id] == d && d.id !in rows && d.id !in done
  }

  lemma AliasMayJoin(t: Tests, alias: Aliases, rows: map<Id, Doc>, done: set<Id>, d: Doc)
    requires AliasSound(t, alias, rows, done) && d.id !in rows && d.id !in done
    ensures d.id !in alias && AliasSound(t, alias, rows[d.id := d], done + {d.id})
  {
  }

  lemma RowsMayJoin(t: Tests, cats: map<Id, Doc>, incoming: map<Id, Doc>, rows: map<Id, Doc>, done: set<Id>, d: Doc)
    requires RowsSound(t, cats, incoming, rows, done) && d.id in incoming
    ensures RowsSound(t, cats, incoming, rows[d.id := d], done + {d.id})
  {
  }

  lemma HoldingMayJoin(byKey: Index, rows: map<Id, Doc>, d: Doc)
    requires Holding(byKey, rows) && d.id !in rows
    ensures Holding(byKey, rows[d.id := d])
  {
  }

  /** It may join the rows that hold keys, */
  lemma MayJoin(t: Tests, cats: map<Id, Doc>, incoming: map<Id, Doc>, rows: map<Id, Doc>, done: set<Id>, st: State,
                d: Doc)
    requires Sound(t, cats, incoming, rows, done, st) && Unweighed(rows, incoming, done, d)
    ensures d.id !in st.alias && d.id !in st.dropped
    ensures Sound(t, cats, incoming, rows[d.id := d], done + {d.id}, st)
  {
    AliasMayJoin(t, st.alias, rows, done, d);
    RowsMayJoin(t, cats, incoming, rows, done, d);
    HoldingMayJoin(st.byKey, rows, d);
  }

  /** and then does, */
  lemma JoinKeeps(t: Tests, cats: map<Id, Doc>, incoming: map<Id, Doc>, rows: map<Id, Doc>, done: set<Id>, st: State,
                  d: Doc)
    requires Sound(t, cats, incoming, rows, done, st) && d.id in rows && rows[d.id] == d
    ensures Sound(t, cats, incoming, rows, done, Join(st, d))
  {
    AddedHolds(st.byKey, rows, d);
  }

  lemma AddedHolds(byKey: Index, rows: map<Id, Doc>, d: Doc)
    requires Holding(byKey, rows) && d.id in rows && rows[d.id] == d
    ensures d.key != "" ==> Holding(Added(byKey, d), rows)
  {
    forall key, r | r in Rows(Added(byKey, d), key) && d.key != ""
      ensures r.key == key && key != "" && r.id in rows && rows[r.id] == r
    {
      if key != d.key || r != d { assert r in Rows(byKey, key); }
    }
  }

  /** or stays out of them. */
  lemma StaysOut(t: Tests, cats: map<Id, Doc>, incoming: map<Id, Doc>, rows: map<Id, Doc>, done: set<Id>, st: State,
                 id: Id)
    requires Sound(t, cats, incoming, rows, done, st)
    ensures Sound(t, cats, incoming, rows, done + {id}, st)
  {
  }

  lemma SameHolds(t: Tests, byKey: Index, rows: map<Id, Doc>, d: Doc)
    requires Holding(byKey, rows)
    ensures var s := SameIn(t, Rows(byKey, d.key), d);
      s.Some? ==> s.value.id in rows && rows[s.value.id] == s.value && s.value.id != d.id
  {
    var s := SameIn(t, Rows(byKey, d.key), d);
    if s.Some? { assert s.value in Rows(byKey, d.key); }
  }

  lemma NewKeeps(t: Tests, cats: map<Id, Doc>, incoming: map<Id, Doc>, rows: map<Id, Doc>, done: set<Id>, st: State,
                 d: Doc)
    returns (now: map<Id, Doc>)
    requires Sound(t, cats, incoming, rows, done, st) && Unweighed(rows, incoming, done, d) && d.id !in cats
    ensures Sound(t, cats, incoming, now, done + {d.id}, WeighNew(t, st, d))
  {
    var s := SameIn(t, Rows(st.byKey, d.key), d);
    SameHolds(t, st.byKey, rows, d);
    if s.Some? && (!Waits(t, s.value) || Waits(t, d)) {
      now := rows;
      StaysOut(t, cats, incoming, rows, done, st, d.id);
      AttachKeeps(t, st, d, s.value, rows, done + {d.id});
    } else {
      now := rows[d.id := d];
      MayJoin(t, cats, incoming, rows, done, st, d);
      var r := if s.Some? then Replace(t, st, s.value, d) else st;
      if s.Some? { ReplaceKeeps(t, st, s.value, d, now, done + {d.id}); }
      ReachKeeps(t, r.(unreachable := []), r.unreachable, d, now, done + {d.id});
      JoinKeeps(t, cats, incoming, now, done + {d.id}, Reach(t, r.(unreachable := []), r.unreachable, d), d);
    }
  }

  lemma {:induction false} ExceptIsPart(rows: seq<Doc>, id: Id)
    ensures forall r :: r in Except(rows, id) ==> r in rows && r.id != id
  {
    if rows != [] { ExceptIsPart(rows[1..], id); }
  }

  lemma LookalikeKeeps(t: Tests, cats: map<Id, Doc>, incoming: map<Id, Doc>, rows: map<Id, Doc>, done: set<Id>,
                       st: State, d: Doc, cur: Doc, holders: seq<Doc>)
    returns (now: map<Id, Doc>)
    requires Sound(t, cats, incoming, rows, done, st) && Unweighed(rows, incoming, done, d) && d.id in cats
    requires t.fold(cur.key) == d.key != ""
    requires forall r :: r in holders ==> r.id in rows && rows[r.id] == r
    ensures Sound(t, cats, incoming, now, done + {d.id}, WeighLookalike(t, st, d, cur, holders))
  {
    var s := SameIn(t, holders, d);
    var replaced := s.Some? && Waits(t, s.value) && !Waits(t, d);
    if s.Some? && (!cur.reviewed || s.value.reviewed) && !replaced {
      now := rows;
      StaysOut(t, cats, incoming, rows, done, st, d.id);
      AttachKeeps(t, st, d, s.value, rows, done + {d.id});
    } else if s.None? && t.eth(cur.key) {
      now := rows;
      StaysOut(t, cats, incoming, rows, done, st, d.id);
    } else {
      now := rows[d.id := d];
      MayJoin(t, cats, incoming, rows, done, st, d);
      if replaced {
        ReplaceKeeps(t, st, s.value, d, now, done + {d.id});
        JoinKeeps(t, cats, incoming, now, done + {d.id}, Replace(t, st, s.value, d), d);
      } else {
        JoinKeeps(t, cats, incoming, now, done + {d.id}, st, d);
      }
    }
  }

  lemma KnownKeeps(t: Tests, cats: map<Id, Doc>, incoming: map<Id, Doc>, rows: map<Id, Doc>, done: set<Id>, st: State,
                   d: Doc)
    returns (now: map<Id, Doc>)
    requires Sound(t, cats, incoming, rows, done, st) && Unweighed(rows, incoming, done, d) && d.id in cats
    ensures Sound(t, cats, incoming, now, done + {d.id}, WeighKnown(t, st, d, cats[d.id]))
  {
    var cur := cats[d.id];
    var holders := Except(Rows(st.byKey, d.key), d.id);
    if WeighKnown(t, st, d, cur) == st {
      now := rows;
      StaysOut(t, cats, incoming, rows, done, st, d.id);
    } else if t.fold(cur.key) == d.key && holders != [] {
      ExceptIsPart(Rows(st.byKey, d.key), d.id);
      assert holders[0] in Rows(st.byKey, d.key);
      now := LookalikeKeeps(t, cats, incoming, rows, done, st, d, cur, holders);
    } else {
      now := rows[d.id := d];
      MayJoin(t, cats, incoming, rows, done, st, d);
      JoinKeeps(t, cats, incoming, now, done + {d.id}, st, d);
    }
  }

  /** Weighing one document keeps all this. */
  lemma WeighKeeps(t: Tests, cats: map<Id, Doc>, incoming: map<Id, Doc>, rows: map<Id, Doc>, done: set<Id>, st: State,
                   d: Doc)
    returns (now: map<Id, Doc>)
    requires Sound(t, cats, incoming, rows, done, st)
    requires d.id in incoming && incoming[d.id] == d && d.id !in done
    ensures Sound(t, cats, incoming, now, done + {d.id}, Weigh(t, cats, st, d))
  {
    if d.id in rows {
      now := rows;
      assert Settled(t, cats, incoming, d.id);
      StaysOut(t, cats, incoming, rows, done, st, d.id);
    } else if d.id in cats {
      now := KnownKeeps(t, cats, incoming, rows, done, st, d);
    } else {
      now := NewKeeps(t, cats, incoming, rows, done, st, d);
    }
  }

  // ----- the whole import -----

  lemma {:induction false} ByIdIs(docs: seq<Doc>)
    requires DifferentIds(docs)
    ensures forall id :: id in ById(docs) ==> ById(docs)[id] in docs && ById(docs)[id].id == id
    ensures forall d :: d in docs ==> d.id in ById(docs) && ById(docs)[d.id] == d
  {
    if docs != [] {
      var init, d := docs[..|docs| - 1], docs[|docs| - 1];
      assert docs == init + [d];
      ByIdIs(init);
      forall e | e in init ensures e.id != d.id {
        var i :| 0 <= i < |init| && init[i] == e;
        assert docs[i] == e;
      }
    }
  }

  /** The rows that hold a key from the start are the catalogue's, or stand for them. */
  lemma {:induction false} FirstHolders(t: Tests, incoming: map<Id, Doc>, existing: seq<Doc>)
    returns (rows: map<Id, Doc>)
    requires DifferentIds(existing) && forall id :: id in incoming ==> incoming[id].id == id
    ensures Holding(Indexed(t, incoming, existing), rows)
    ensures RowsSound(t, ById(existing), incoming, rows, {}) && rows.Keys <= ById(existing).Keys
  {
    rows := map[];
    if existing != [] {
      var init, e := existing[..|existing| - 1], existing[|existing| - 1];
      rows := FirstHolders(t, incoming, init);
      NewId(existing);
      var h := Holder(t, incoming, e);
      if h.Some? {
        rows := rows[e.id := h.value];
        AddedHolds(Indexed(t, incoming, init), rows, h.value);
      }
    }
  }

  lemma NewId(docs: seq<Doc>)
    requires DifferentIds(docs) && docs != []
    ensures docs[|docs| - 1].id !in ById(docs[..|docs| - 1])
  {
    var init := docs[..|docs| - 1];
    ByIdIs(init);
    forall d | d in init ensures d.id != docs[|docs| - 1].id {
      var i :| 0 <= i < |init| && init[i] == d;
      assert docs[i] == d;
    }
  }

  /** The import in some order. */
  predicate Arranged(order: seq<Doc>, docs: seq<Doc>) {
    DifferentIds(order) && forall d :: d in order ==> d in docs
  }

  lemma {:induction false} AllIsSound(t: Tests, existing: seq<Doc>, docs: seq<Doc>, order: seq<Doc>)
    returns (rows: map<Id, Doc>)
    requires DifferentIds(existing) && DifferentIds(docs) && Arranged(order, docs)
    ensures Sound(t, ById(existing), ById(docs), rows, ById(order).Keys, Weighed(t, existing, docs, order))
  {
    ByIdIs(docs);
    if order == [] {
      rows := FirstHolders(t, ById(docs), existing);
    } else {
      var init, d := order[..|order| - 1], order[|order| - 1];
      assert order == init + [d];
      rows := AllIsSound(t, existing, docs, init);
      NewId(order);
      rows := WeighKeeps(t, ById(existing), ById(docs), rows, ById(init).Keys, Weighed(t, existing, docs, init), d);
      assert ById(order).Keys == ById(init).Keys + {d.id};
    }
  }

  lemma TwoSteps(alias: Aliases, id: Id)
    requires id in alias && alias[id] in alias ==> alias[alias[id]] !in alias
    ensures EndsInTime(alias, id)
    ensures SurvivorOf(alias, id)
         == if id !in alias then id else if alias[id] !in alias then alias[id] else alias[alias[id]]
  {
    assert Hop(alias, id, 0) == id;
    if id !in alias {
      EndIsStable(alias, id, 0, HOPS);
    } else if alias[id] !in alias {
      assert Hop(alias, id, 1) == alias[id];
      EndIsStable(alias, id, 1, HOPS);
    } else {
      assert Hop(alias, id, 1) == alias[id];
      assert Hop(alias, id, 2) == alias[alias[id]];
      EndIsStable(alias, id, 2, HOPS);
    }
  }

  /**
   * Four steps are always enough: whatever the texts, the catalogue and the import, and in whatever
   * order it is weighed, no twin is its own, and the row a twin's survivor is a twin of is no twin.
   */
  lemma ChainsAreShort(t: Tests, existing: seq<Doc>, docs: seq<Doc>, order: seq<Doc>)
    requires DifferentIds(existing) && DifferentIds(docs) && Arranged(order, docs)
    ensures var alias := Weighed(t, existing, docs, order).alias;
      && (forall id :: id in alias ==> alias[id] != id)
      && (forall id :: id in alias && alias[id] in alias ==> alias[alias[id]] !in alias)
      && ShortChains(alias)
  {
    var rows := AllIsSound(t, existing, docs, order);
    var alias := Weighed(t, existing, docs, order).alias;
    forall id ensures EndsInTime(alias, id) {
      TwoSteps(alias, id);
    }
  }

  /** A twin survives as a row of the catalogue, or as an imported document that is not dropped. */
  lemma SurvivorIsThere(t: Tests, existing: seq<Doc>, docs: seq<Doc>, order: seq<Doc>, twin: Id)
    requires DifferentIds(existing) && DifferentIds(docs) && Arranged(order, docs)
    requires twin in Weighed(t, existing, docs, order).alias
    ensures var st := Weighed(t, existing, docs, order);
      var id := SurvivorOf(st.alias, twin);
      id !in st.alias && id !in st.dropped && (id in ById(existing) || id in ById(docs))
  {
    var rows := AllIsSound(t, existing, docs, order);
    TwoSteps(Weighed(t, existing, docs, order).alias, twin);
  }

  /** Twins and survivors are rows of the catalogue or of the import. */
  lemma TwinsAreRows(t: Tests, existing: seq<Doc>, docs: seq<Doc>, order: seq<Doc>)
    requires DifferentIds(existing) && DifferentIds(docs) && Arranged(order, docs)
    ensures var alias := Weighed(t, existing, docs, order).alias;
      alias.Keys + alias.Values <= ById(existing).Keys + ById(docs).Keys
  {
    var rows := AllIsSound(t, existing, docs, order);
    ByIdIs(docs);
    ByIdIs(order);
  }

  /** What is dropped is new, and a twin. */
  lemma DroppedAreNewTwins(t: Tests, existing: seq<Doc>, docs: seq<Doc>, order: seq<Doc>, id: Id)
    requires DifferentIds(existing) && DifferentIds(docs) && Arranged(order, docs)
    requires id in Weighed(t, existing, docs, order).dropped
    ensures id in Weighed(t, existing, docs, order).alias && id !in ById(existing)
  {
    var rows := AllIsSound(t, existing, docs, order);
  }

  // ----- the algorithm -----

  predicate Digits(s: string) {
    s != "" && forall i :: 0 <= i < |s| ==> '0' <= s[i] <= '9'
  }

  /** Numbers by their value, other ids as texts. */
  predicate IdLess(a: string, b: string) {
    if Digits(a) && Digits(b) && |a| != |b| then |a| < |b| else a != b && UpTo(a, b)
  }

  predicate NotBehind(cats: map<Id, Doc>, a: Doc, b: Doc) {
    if (a.id in cats) != (b.id in cats) then a.id in cats else !IdLess(b.id.name, a.id.name)
  }

  /** Catalogued rows come before new ones. */
  predicate CataloguedFirst(cats: map<Id, Doc>, order: seq<Doc>) {
    forall i, j :: 0 <= i < j < |order| && order[j].id in cats ==> order[i].id in cats
  }

  /** Catalogued rows first, and then the smaller number. */
  predicate InTurn(cats: map<Id, Doc>, a: Doc, b: Doc) {
    if (a.id in cats) != (b.id in cats) then a.id in cats
    else |a.id.name| < |b.id.name| || (|a.id.name| == |b.id.name| && UpTo(a.id.name, b.id.name))
  }

  function Behind(cats: map<Id, Doc>): (Doc, Doc) -> bool {
    (a, b) => NotBehind(cats, a, b)
  }

  lemma {:induction false} InsertedFirst(cats: map<Id, Doc>, s: seq<Doc>, x: Doc)
    requires CataloguedFirst(cats, s)
    ensures CataloguedFirst(cats, Sorting.Insert(Behind(cats), s, x))
  {
    if s != [] {
      var n := |s| - 1;
      if !NotBehind(cats, s[n], x) {
        InsertedFirst(cats, s[..n], x);
        var r := Sorting.Insert(Behind(cats), s[..n], x);
        Sorting.SameElements(r, s[..n] + [x]);
        forall i | 0 <= i < |r| && s[n].id in cats ensures r[i].id in cats {
          assert r[i] in s[..n] + [x];
        }
      }
    }
  }

  lemma {:induction false} SortedFirst(cats: map<Id, Doc>, docs: seq<Doc>)
    ensures CataloguedFirst(cats, Sorting.Sort(Behind(cats), docs))
  {
    if docs != [] {
      SortedFirst(cats, docs[..|docs| - 1]);
      InsertedFirst(cats, Sorting.Sort(Behind(cats), docs[..|docs| - 1]), docs[|docs| - 1]);
    }
  }

  lemma NumbersInTurn(cats: map<Id, Doc>, a: Doc, b: Doc)
    requires Digits(a.id.name) && Digits(b.id.name)
    ensures NotBehind(cats, a, b) <==> InTurn(cats, a, b)
  {
    UpToIsTotal(a.id.name, b.id.name);
    if UpTo(a.id.name, b.id.name) && UpTo(b.id.name, a.id.name) {
      UpToIsAntisymmetric(a.id.name, b.id.name);
    }
  }

  lemma NumbersAreOrdered(cats: map<Id, Doc>, all: set<Doc>)
    requires forall d :: d in all ==> Digits(d.id.name)
    ensures Sorting.PreorderOn(Behind(cats), all)
  {
    forall a, b | a in all && b in all ensures NotBehind(cats, a, b) || NotBehind(cats, b, a) {
      NumbersInTurn(cats, a, b);
      NumbersInTurn(cats, b, a);
      UpToIsTotal(a.id.name, b.id.name);
    }
    forall a, b, c | a in all && b in all && c in all && NotBehind(cats, a, b) && NotBehind(cats, b, c)
      ensures NotBehind(cats, a, c)
    {
      NumbersInTurn(cats, a, b);
      NumbersInTurn(cats, b, c);
      NumbersInTurn(cats, a, c);
      if UpTo(a.id.name, b.id.name) && UpTo(b.id.name, c.id.name) {
        UpToIsTransitive(a.id.name, b.id.name, c.id.name);
      }
    }
  }

  predicate AllNumbers(docs: seq<Doc>) {
    forall i :: 0 <= i < |docs| ==> Digits(docs[i].id.name)
  }

  predicate AllInTurn(cats: map<Id, Doc>, order: seq<Doc>) {
    forall i, j :: 0 <= i < j < |order| ==> InTurn(cats, order[i], order[j])
  }

  lemma NumbersAreSorted(cats: map<Id, Doc>, docs: seq<Doc>)
    requires AllNumbers(docs)
    ensures AllInTurn(cats, Sorting.Sort(Behind(cats), docs))
  {
    var all := Batches.Members(docs);
    var order := Sorting.Sort(Behind(cats), docs);
    NumbersAreOrdered(cats, all);
    Sorting.SortSortsOn(Behind(cats), docs, all);
    forall i, j | 0 <= i < j < |order| ensures InTurn(cats, order[i], order[j]) {
      assert order[i] in all && order[j] in all && NotBehind(cats, order[i], order[j]);
      NumbersInTurn(cats, order[i], order[j]);
    }
  }

  /**
   * Catalogued rows first, then new ones; and where every id is a number, each by rising numbers.
   */
  method ResolveOrder(docs: seq<Doc>, cats: map<Id, Doc>) returns (order: seq<Doc>)
    requires DifferentIds(docs)
    ensures Arranged(order, docs) && forall d :: d in docs ==> d in order
    ensures CataloguedFirst(cats, order)
    ensures AllNumbers(docs) ==> AllInTurn(cats, order)
  {
    order := Sorting.Sort(Behind(cats), docs);
    Sorting.SameElements(order, docs);
    SortedFirst(cats, docs);
    if AllNumbers(docs) { NumbersAreSorted(cats, docs); }
    Batches.RearrangedStayDifferent(docs, order);
    forall i, j | 0 <= i < j < |order| ensures order[i].id != order[j].id {
      assert order[i] in docs && order[j] in docs;
    }
  }

  method MapById(docs: seq<Doc>) returns (byID: map<Id, Doc>)
    ensures byID == ById(docs)
  {
    byID := map[];
    for i := 0 to |docs|
      invariant byID == ById(docs[..i])
    {
      assert docs[..i + 1][..i] == docs[..i];
      byID := byID[docs[i].id := docs[i]];
    }
    assert docs[..|docs|] == docs;
  }

  method IndexRows(t: Tests, incoming: map<Id, Doc>, existing: seq<Doc>) returns (byKey: Index)
    ensures byKey == Indexed(t, incoming, existing)
  {
    byKey := map[];
    for i := 0 to |existing|
      invariant byKey == Indexed(t, incoming, existing[..i])
    {
      assert existing[..i + 1][..i] == existing[..i];
      var e := existing[i];
      if e.key == "" || t.fold(e.key) != e.key { continue; }
      if e.id in incoming && !e.reviewed {
        if incoming[e.id].key == e.key { byKey := Added(byKey, incoming[e.id]); }
        continue;
      }
      byKey := Added(byKey, e);
    }
    assert existing[..|existing|] == existing;
  }

  /** What is found, when the rows up to here gave only a placeholder, or nothing. */
  function Better(t: Tests, placeholder: Option<Doc>, later: Option<Doc>): Option<Doc> {
    if placeholder.None? || (later.Some? && !Waits(t, later.value)) then later else placeholder
  }

  method SameDocumentIn(t: Tests, rows: seq<Doc>, d: Doc) returns (s: Option<Doc>)
    ensures s == SameIn(t, rows, d)
  {
    s := None;
    var i := 0;
    assert rows[0..] == rows;
    while i < |rows|
      invariant i <= |rows| && (s.Some? ==> Waits(t, s.value))
      invariant SameIn(t, rows, d) == Better(t, s, SameIn(t, rows[i..], d))
    {
      var r := rows[i];
      assert rows[i..][1..] == rows[i + 1..];
      i := i + 1;
      if r.id == d.id || !t.same(r, d) { continue; }
      if !Waits(t, r) { return Some(r); }
      if s.None? { s := Some(r); }
    }
  }

  method AttachTwin(t: Tests, st: State, twin: Doc, survivor: Doc) returns (s: State)
    ensures s == Attach(t, st, twin, survivor)
  {
    s := st.(alias := st.alias[twin.id := survivor.id]);
    if t.trim(twin.status) != t.trim(survivor.status) {
      s := s.(differs := s.differs + [Attached(twin, survivor)]);
    }
  }

  method ReplaceAll(t: Tests, st: State, waiting: Doc, full: Doc) returns (s: State)
    ensures s == Replace(t, st, waiting, full)
  {
    s := st;
    if waiting.id !in s.alias { s := AttachTwin(t, s, waiting, full); }
    var rows := Rows(s.byKey, waiting.key);
    var i := 0;
    assert rows[0..] == rows;
    while i < |rows|
      invariant i <= |rows|
      invariant Replace(t, st, waiting, full) == ReplaceIn(t, s, rows[i..], full)
    {
      var p := rows[i];
      assert rows[i..][1..] == rows[i + 1..];
      if p.id !in s.alias && p.id != full.id && Waits(t, p) && t.same(p, full) { s := AttachTwin(t, s, p, full); }
      i := i + 1;
    }
  }

  method ReachAll(t: Tests, st: State, d: Doc) returns (s: State)
    ensures s == Reach(t, st.(unreachable := []), st.unreachable, d)
  {
    var twins := st.unreachable;
    s := st.(unreachable := []);
    var i := 0;
    assert twins[0..] == twins;
    while i < |twins|
      invariant i <= |twins|
      invariant Reach(t, st.(unreachable := []), twins, d) == Reach(t, s, twins[i..], d)
    {
      var u := twins[i];
      assert twins[i..][1..] == twins[i + 1..];
      i := i + 1;
      if u.row.id !in s.alias && t.fold(u.row.key) == d.key && t.same(u.row, d) {
        s := AttachTwin(t, s, u.row, d);
        continue;
      }
      s := s.(unreachable := s.unreachable + [u]);
    }
  }

  method TakeNew(t: Tests, st: State, d: Doc) returns (s: State)
    ensures s == WeighNew(t, st, d)
  {
    s := st;
    var found := SameDocumentIn(t, Rows(s.byKey, d.key), d);
    if found.Some? {
      if !Waits(t, found.value) || Waits(t, d) {
        s := AttachTwin(t, s, d, found.value);
        return s.(dropped := s.dropped + {d.id});
      }
      s := ReplaceAll(t, s, found.value, d);
    }
    s := ReachAll(t, s, d);
    if d.key != "" { s := s.(byKey := Added(s.byKey, d)); }
  }

  method TakeKnown(t: Tests, st: State, d: Doc, cur: Doc) returns (s: State)
    ensures s == WeighKnown(t, st, d, cur)
  {
    s := st;
    if cur.key != d.key && t.fold(cur.key) == d.key {
      var holders := Except(Rows(s.byKey, d.key), d.id);
      if |holders| > 0 {
        var found := SameDocumentIn(t, holders, d);
        var placeholder := found.Some? && Waits(t, found.value) && !Waits(t, d);
        if found.Some? && (!cur.reviewed || found.value.reviewed) && !placeholder {
          s := AttachTwin(t, s, d, found.value);
          return s.(renumbered := s.renumbered[d.id := Renumbered(d, cur)]);
        } else if placeholder {
          s := ReplaceAll(t, s, found.value, d);
        } else if found.None? && t.eth(cur.key) {
          var back := Renumbered(d, cur);
          return s.(unreachable := s.unreachable + [Twin(back, Ids(holders))],
                    renumbered := s.renumbered[d.id := back]);
        }
      }
    }
    if d.key != "" && cur.key != d.key && (!cur.reviewed || t.fold(cur.key) == d.key) {
      s := s.(byKey := Added(s.byKey, d));
    }
  }

  /** With what comes out every chain of twins is short, and what is kept of the import is told. */
  method ResolveTwins(t: Tests, existing: seq<Doc>, docs: seq<Doc>)
    returns (keep: seq<Doc>, st: State, ghost order: seq<Doc>)
    requires DifferentIds(existing) && DifferentIds(docs)
    ensures Arranged(order, docs) && (forall d :: d in docs ==> d in order) && CataloguedFirst(ById(existing), order)
    ensures AllNumbers(docs) ==> AllInTurn(ById(existing), order)
    ensures st == Weighed(t, existing, docs, order)
    ensures keep == Kept(docs, st.dropped, st.renumbered) && ShortChains(st.alias)
  {
    var byID := MapById(existing);
    var incoming := MapById(docs);
    var byKey := IndexRows(t, incoming, existing);
    st := State(byKey, map[], [], [], {}, map[]);
    var weighed := ResolveOrder(docs, byID);
    order := weighed;
    for i := 0 to |weighed|
      invariant st == Weighed(t, existing, docs, weighed[..i])
    {
      assert weighed[..i + 1][..i] == weighed[..i];
      var d := weighed[i];
      if d.id in byID { st := TakeKnown(t, st, d, byID[d.id]); } else { st := TakeNew(t, st, d); }
    }
    assert weighed[..|weighed|] == weighed;
    keep := KeepRest(docs, st);
    ChainsAreShort(t, existing, docs, order);
  }

  /** What is kept of the import is what was not dropped, in order, some with their old number. */
  lemma {:induction false} KeptIsExact(docs: seq<Doc>, more: seq<Doc>, dropped: set<Id>, renumbered: map<Id, Doc>)
    ensures Kept(docs + more, dropped, renumbered)
         == Kept(docs, dropped, renumbered) + Kept(more, dropped, renumbered)
    decreases |more|
  {
    if more == [] {
      assert docs + more == docs;
    } else {
      var n := |more| - 1;
      assert (docs + more)[..|docs + more| - 1] == docs + more[..n];
      KeptIsExact(docs, more[..n], dropped, renumbered);
    }
  }

  lemma KeptOfOne(d: Doc, dropped: set<Id>, renumbered: map<Id, Doc>)
    ensures Kept([d], dropped, renumbered)
         == if d.id in dropped then [] else if d.id in renumbered then [renumbered[d.id]] else [d]
  {
    assert [d][..0] == [];
  }

  method KeepRest(docs: seq<Doc>, st: State) returns (keep: seq<Doc>)
    ensures keep == Kept(docs, st.dropped, st.renumbered)
  {
    keep := [];
    for i := 0 to |docs|
      invariant keep == Kept(docs[..i], st.dropped, st.renumbered)
    {
      assert docs[..i + 1][..i] == docs[..i];
      var d := docs[i];
      if d.id !in st.dropped { keep := keep + [if d.id in st.renumbered then st.renumbered[d.id] else d]; }
    }
    assert docs[..|docs|] == docs;
  }
}
