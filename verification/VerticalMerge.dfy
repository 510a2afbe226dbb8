/**
 * The pass over a table that expands its merged blocks in place, row after row, with a dictionary
 * from grid columns to the content shown there.
 */
module VerticalMerge {
  import opened Expansion
  import opened MergedCells
  import opened Options

  /** The dictionary has exactly the right entry, or none, for one column. */
  predicate Holds(rows: seq<Row>, m: Option<Position>, active: map<int, seq<Node>>, column: int)
    requires m.Some? ==> InTable(rows, m.value)
  {
    && (column in active <==> m.Some?)
    && (column in active ==> active[column] == CellAt(rows, m.value).content)
  }

  /** The dictionary being built for a row holds what the first n of its cells show. */
  ghost predicate Shows(rows: seq<Row>, r: nat, n: nat, active: map<int, seq<Node>>)
    requires r < |rows| && n <= |rows[r].cells|
  {
    && (forall column :: Holds(rows, Shown(rows, r, n, column), active, column))
    && (forall column :: Column(rows[r], n) <= column ==> column !in active)
  }

  /** The dictionary handed down to row r holds what the row above shows. */
  ghost predicate HandedTo(rows: seq<Row>, r: nat, active: map<int, seq<Node>>)
    requires r <= |rows|
  {
    forall column :: Holds(rows, Above(rows, r, column), active, column)
  }

  method FirstActive(active: map<int, seq<Node>>, lo: int, hi: int, ghost rows: seq<Row>, ghost r: nat)
    returns (template: Option<seq<Node>>)
    requires r < |rows| && HandedTo(rows, r, active)
    ensures template.Some? <==> FirstAbove(rows, r, lo, hi).Some?
    ensures template.Some? ==> template.value == CellAt(rows, FirstAbove(rows, r, lo, hi).value).content
  {
    var column := lo;
    while column < hi
      invariant FirstAbove(rows, r, lo, hi) == FirstAbove(rows, r, column, hi)
    {
      assert Holds(rows, Above(rows, r, column), active, column);
      if column in active { return Some(active[column]); }
      column := column + 1;
    }
    template := None;
  }

  method Occupy(active: map<int, seq<Node>>, lo: int, hi: int, template: seq<Node>)
    returns (after: map<int, seq<Node>>)
    requires lo <= hi
    ensures forall column :: column in after <==> lo <= column < hi || column in active
    ensures forall column :: column in after ==>
              after[column] == if lo <= column < hi then template else active[column]
  {
    after := active;
    var k := lo;
    while k < hi
      invariant lo <= k <= hi
      invariant forall column :: column in after <==> lo <= column < k || column in active
      invariant forall column :: column in after ==>
                  after[column] == if lo <= column < k then template else active[column]
    {
      after := after[k := template];
      k := k + 1;
    }
  }

  lemma ShownNext(rows: seq<Row>, r: nat, n: nat, before: map<int, seq<Node>>, after: map<int, seq<Node>>)
    requires r < |rows| && n < |rows[r].cells|
    requires Shows(rows, r, n, before)
    requires Master(rows, r, n) == None ==> after == before
    requires Master(rows, r, n).Some? ==>
               forall column :: column in after <==> Covers(rows[r], n, column) || column in before
    requires Master(rows, r, n).Some? ==>
               forall column :: column in after ==>
                 after[column] == if Covers(rows[r], n, column) then CellAt(rows, Master(rows, r, n).value).content
                                  else before[column]
    ensures Shows(rows, r, n + 1, after)
  {
    var m := n + 1;
    forall column ensures Holds(rows, Shown(rows, r, m, column), after, column) {
      assert Holds(rows, Shown(rows, r, n, column), before, column);
    }
  }

  /** The cells of row r as they stand when the first n of them have been dealt with. */
  function Settled(rows: seq<Row>, r: nat, n: nat): (cells: seq<Cell>)
    requires r < |rows| && n <= |rows[r].cells|
    ensures |cells| == |rows[r].cells|
    ensures forall c :: n <= c < |cells| ==> cells[c] == rows[r].cells[c]
    ensures forall c :: 0 <= c < n ==> cells[c] == Filled(rows, r, c)
  {
    if n == 0 then rows[r].cells else Settled(rows, r, n - 1)[n - 1 := Filled(rows, r, n - 1)]
  }

  function Partly(rows: seq<Row>, r: nat, n: nat): Row
    requires r < |rows| && n <= |rows[r].cells|
  {
    Row(rows[r].gridBefore, Settled(rows, r, n))
  }

  lemma SameRow(rows: seq<Row>, r: nat, row: Row)
    requires r < |rows| && rows[r] == row
    ensures rows[r := row] == rows
  {
  }

  lemma HandOver(rows: seq<Row>, r: nat, active: map<int, seq<Node>>)
    requires r < |rows| && Shows(rows, r, |rows[r].cells|, active)
    ensures HandedTo(rows, r + 1, active)
  {
    var next := r + 1;
    forall column ensures Holds(rows, Above(rows, next, column), active, column) {
      assert Holds(rows, Shown(rows, r, |rows[r].cells|, column), active, column);
    }
  }

  lemma PartlyNext(rows: seq<Row>, r: nat, n: nat)
    requires r < |rows| && n < |rows[r].cells|
    ensures Master(rows, r, n) == None ==> Partly(rows, r, n + 1) == Partly(rows, r, n)
  {
    if Master(rows, r, n) == None {
      assert Settled(rows, r, n)[n := rows[r].cells[n]] == Settled(rows, r, n);
    }
  }

  /** The table as it stands when its first n rows have been dealt with. */
  function Done(rows: seq<Row>, n: nat): (done: seq<Row>)
    requires n <= |rows|
    ensures |done| == |rows|
    ensures forall r :: n <= r < |rows| ==> done[r] == rows[r]
    ensures forall r :: 0 <= r < n ==> done[r] == Partly(rows, r, |rows[r].cells|)
  {
    if n == 0 then rows
    else Done(rows, n - 1)[n - 1 := Partly(rows, n - 1, |rows[n - 1].cells|)]
  }

  lemma DoneIsExpanded(rows: seq<Row>)
    ensures Done(rows, |rows|) == Expanded(rows)
  {
    forall r | 0 <= r < |rows| ensures Done(rows, |rows|)[r] == Expanded(rows)[r] {
      assert Settled(rows, r, |rows[r].cells|) == ExpandedCells(rows, r);
    }
  }

  lemma NothingAbove(rows: seq<Row>)
    ensures HandedTo(rows, 0, map[])
  {
  }

  /** A table; its rows are edited in place. */
  class WordTable {
    var rows: seq<Row>

    constructor (rows: seq<Row>)
      ensures this.rows == rows
    {
      this.rows := rows;
    }

    /** Replaces a cell. */
    method Settle(r: nat, c: nat, cell: Cell)
      requires InTable(rows, Position(r, c))
      modifies this
      ensures rows == old(rows)[r := Row(old(rows)[r].gridBefore, old(rows)[r].cells[c := cell])]
    {
      rows := rows[r := Row(rows[r].gridBefore, rows[r].cells[c := cell])];
    }

    /**
     * One cell of the row: a restart cell offers its content to the row below, a continue cell takes
     * the content offered in the first of its columns and passes it on.
     */
    method FillCell(r: nat, c: nat, column: int, active: map<int, seq<Node>>, next: map<int, seq<Node>>,
                    ghost was: seq<Row>)
      returns (after: map<int, seq<Node>>, end: int, touched: bool, took: bool)
      requires InTable(was, Position(r, c)) && HandedTo(was, r, active)
      requires r < |rows| && rows[r] == Partly(was, r, c)
      requires column == Column(was[r], c)
      requires Shows(was, r, c, next)
      modifies this
      ensures rows == old(rows)[r := Partly(was, r, c + 1)]
      ensures Shows(was, r, c + 1, after) && end == Column(was[r], c + 1)
      ensures took <==> was[r].cells[c].merge == Continue && Master(was, r, c).Some?
      ensures touched <==> took || was[r].cells[c].merge == Restart
    {
      PartlyNext(was, r, c);
      SameRow(rows, r, Partly(was, r, c));
      var cell := rows[r].cells[c];
      var span := Span(cell);
      var template := None;
      end, took := column + span, false;
      if cell.merge == Restart {
        template := Some(cell.content);
      } else if cell.merge == Continue {
        template := FirstActive(active, column, end, was, r);
        took := template.Some?;
      }
      after, touched := next, template.Some?;
      if template.Some? {
        after := Occupy(next, column, end, template.value);
        assert cell.(merge := Unmerged, content := template.value) == Filled(was, r, c);
        Settle(r, c, cell.(merge := Unmerged, content := template.value));
      }
      ShownNext(was, r, c, next, after);
    }

    method FillRow(r: nat, active: map<int, seq<Node>>, ghost was: seq<Row>)
      returns (next: map<int, seq<Node>>, changed: bool, filled: nat)
      requires r < |rows| == |was| && rows[r] == was[r]
      requires HandedTo(was, r, active)
      modifies this
      ensures rows == old(rows)[r := Partly(was, r, |was[r].cells|)]
      ensures HandedTo(was, r + 1, next)
      ensures filled == FilledIn(was, r, |was[r].cells|)
      ensures changed <==> RestartsIn(was[r], |was[r].cells|) || filled > 0
    {
      next, changed, filled := map[], false, 0;
      SameRow(rows, r, was[r]);
      var column := PositiveInt(rows[r].gridBefore, 0);
      var c := 0;
      while c < |rows[r].cells|
        invariant c <= |was[r].cells| && column == Column(was[r], c)
        invariant rows == old(rows)[r := Partly(was, r, c)]
        invariant Shows(was, r, c, next)
        invariant filled == FilledIn(was, r, c)
        invariant changed <==> RestartsIn(was[r], c) || filled > 0
      {
        var touched, took;
        next, column, touched, took := FillCell(r, c, column, active, next, was);
        if touched { changed := true; }
        if took { filled := filled + 1; }
        c := c + 1;
      }
      HandOver(was, r, next);
    }

    method FillRows() returns (changed: bool, filled: nat)
      modifies this
      ensures rows == Done(old(rows), |old(rows)|)
      ensures filled == FilledAbove(old(rows), |old(rows)|)
      ensures changed <==> RestartsAbove(old(rows), |old(rows)|) || filled > 0
    {
      ghost var was := rows;
      changed, filled := false, 0;
      var active := map[];
      NothingAbove(was);
      var r := 0;
      while r < |rows|
        invariant r <= |was| && rows == Done(was, r)
        invariant HandedTo(was, r, active)
        invariant filled == FilledAbove(was, r)
        invariant changed <==> RestartsAbove(was, r) || filled > 0
      {
        var rowChanged, rowFilled;
        active, rowChanged, rowFilled := FillRow(r, active, was);
        changed := changed || rowChanged;
        filled := filled + rowFilled;
        r := r + 1;
      }
    }

    /**
     * The whole table, one row after another with the dictionary of the row above. Reports whether
     * anything changed and how many continue cells were filled.
     */
    method FillVerticalMerges() returns (changed: bool, filled: nat)
      modifies this
      ensures rows == Expanded(old(rows))
      ensures filled == FilledAbove(old(rows), |old(rows)|)
      ensures changed <==> RestartsAbove(old(rows), |old(rows)|)
    {
      ghost var was := rows;
      changed, filled := FillRows();
      DoneIsExpanded(was);
      if !RestartsAbove(was, |was|) { FilledNeedsRestart(was, |was|); }
    }
  }
}
