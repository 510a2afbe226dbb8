/**
 * The table with its merged blocks expanded, what changes in it, and that doing it again changes
 * nothing.
 */
module Expansion {
  import opened MergedCells
  import opened Options

  function Filled(rows: seq<Row>, r: nat, c: nat): Cell
    requires InTable(rows, Position(r, c))
  {
    match Master(rows, r, c)
    case None => rows[r].cells[c]
    case Some(p) => rows[r].cells[c].(merge := Unmerged, content := CellAt(rows, p).content)
  }

  function ExpandedCells(rows: seq<Row>, r: nat): seq<Cell>
    requires r < |rows|
  {
    seq(|rows[r].cells|, c requires 0 <= c < |rows[r].cells| => Filled(rows, r, c))
  }

  function Expanded(rows: seq<Row>): seq<Row> {
    seq(|rows|, r requires 0 <= r < |rows| => Row(rows[r].gridBefore, ExpandedCells(rows, r)))
  }

  /** A cell without its merge mark and with the content of the restart cell p. */
  predicate ShowsContentOf(rows: seq<Row>, p: Position, was: Cell, now: Cell)
    requires InTable(rows, p)
  {
    now == Cell(was.gridSpan, Unmerged, CellAt(rows, p).content)
  }

  /**
   * The expansion cell by cell, without the look-up: a cell no chain leads up from is left alone, and
   * any other loses its merge mark and shows a restart cell some chain leads to.
   */
  lemma ExpansionFollowsChains(rows: seq<Row>, r: nat, c: nat) returns (p: Position)
    requires InTable(rows, Position(r, c))
    ensures InTable(Expanded(rows), Position(r, c))
    ensures !HasChain(rows, r, c) ==> Expanded(rows)[r].cells[c] == rows[r].cells[c]
    ensures HasChain(rows, r, c) ==> InTable(rows, p) && Reaches(rows, p, r, c)
    ensures HasChain(rows, r, c) ==> ShowsContentOf(rows, p, rows[r].cells[c], Expanded(rows)[r].cells[c])
  {
    MasterIsTopOfChain(rows, r, c);
    p := if Master(rows, r, c).Some? then Master(rows, r, c).value else Position(r, c);
    assert Expanded(rows)[r].cells[c] == Filled(rows, r, c);
  }

  /** How many of the first n cells of row r are continue cells that get some other cell's content. */
  function FilledIn(rows: seq<Row>, r: nat, n: nat): nat
    requires r < |rows| && n <= |rows[r].cells|
  {
    if n == 0 then 0
    else FilledIn(rows, r, n - 1)
         + if rows[r].cells[n - 1].merge == Continue && Master(rows, r, n - 1).Some? then 1 else 0
  }

  function FilledAbove(rows: seq<Row>, r: nat): nat
    requires r <= |rows|
  {
    if r == 0 then 0 else FilledAbove(rows, r - 1) + FilledIn(rows, r - 1, |rows[r - 1].cells|)
  }

  predicate RestartsIn(row: Row, n: nat)
    requires n <= |row.cells|
  {
    n > 0 && (row.cells[n - 1].merge == Restart || RestartsIn(row, n - 1))
  }

  predicate RestartsAbove(rows: seq<Row>, r: nat)
    requires r <= |rows|
  {
    r > 0 && (RestartsIn(rows[r - 1], |rows[r - 1].cells|) || RestartsAbove(rows, r - 1))
  }

  /** Something can be filled in a row only if a restart cell stands above it. */
  lemma {:induction false} FilledNeedsRestart(rows: seq<Row>, r: nat)
    requires r <= |rows|
    requires !RestartsAbove(rows, r)
    ensures FilledAbove(rows, r) == 0
    decreases r
  {
    if r > 0 {
      FilledNeedsRestart(rows, r - 1);
      NoneFilled(rows, r - 1, |rows[r - 1].cells|);
    }
  }

  lemma {:induction false} RestartIsAbove(rows: seq<Row>, p: Position, n: nat, k: nat)
    requires InTable(rows, p) && CellAt(rows, p).merge == Restart
    requires p.row < n <= |rows| && p.cell < k <= |rows[p.row].cells|
    ensures RestartsIn(rows[p.row], k) && RestartsAbove(rows, n)
    decreases n, k
  {
    if p.cell < k - 1 {
      RestartIsAbove(rows, p, n, k - 1);
    } else if p.row < n - 1 {
      RestartIsAbove(rows, p, n - 1, k);
    } else {
      RestartSeen(rows[p.row], p.cell, |rows[p.row].cells|);
    }
  }

  lemma {:induction false} RestartSeen(row: Row, c: nat, n: nat)
    requires c < n <= |row.cells| && row.cells[c].merge == Restart
    ensures RestartsIn(row, n)
    decreases n
  {
    if c < n - 1 { RestartSeen(row, c, n - 1); }
  }

  lemma {:induction false} NoneFilled(rows: seq<Row>, r: nat, n: nat)
    requires r < |rows| && n <= |rows[r].cells|
    requires !RestartsAbove(rows, r + 1)
    ensures FilledIn(rows, r, n) == 0
    decreases n
  {
    if n > 0 {
      NoneFilled(rows, r, n - 1);
      if Master(rows, r, n - 1).Some? { MasterIsAbove(rows, r, n - 1); }
    }
  }

  lemma MasterIsAbove(rows: seq<Row>, r: nat, c: nat)
    requires InTable(rows, Position(r, c)) && Master(rows, r, c).Some?
    ensures RestartsAbove(rows, r + 1)
  {
    var p := Master(rows, r, c).value;
    MasterIsReached(rows, r, c);
    ReachesUp(rows, p, r, c);
    RestartIsAbove(rows, p, r + 1, |rows[p.row].cells|);
  }

  // ----- doing it again -----

  /** After one pass no restart cell is left anywhere. */
  predicate Plain(rows: seq<Row>) {
    forall r, c :: 0 <= r < |rows| && 0 <= c < |rows[r].cells| ==> rows[r].cells[c].merge != Restart
  }

  lemma ExpandedIsPlain(rows: seq<Row>)
    ensures Plain(Expanded(rows))
  {
    var after := Expanded(rows);
    forall r, c | 0 <= r < |after| && 0 <= c < |after[r].cells| ensures after[r].cells[c].merge != Restart {
      assert after[r].cells[c] == Filled(rows, r, c);
    }
  }

  lemma PlainIsLeftAlone(rows: seq<Row>)
    requires Plain(rows)
    ensures Expanded(rows) == rows
    ensures !RestartsAbove(rows, |rows|) && FilledAbove(rows, |rows|) == 0
  {
    forall r | 0 <= r < |rows| ensures Expanded(rows)[r] == rows[r] {
      forall c | 0 <= c < |rows[r].cells| ensures ExpandedCells(rows, r)[c] == rows[r].cells[c] {
        assert Master(rows, r, c) == None;
      }
      assert ExpandedCells(rows, r) == rows[r].cells;
    }
    PlainHasNoRestart(rows, |rows|);
    FilledNeedsRestart(rows, |rows|);
  }

  lemma {:induction false} PlainHasNoRestart(rows: seq<Row>, n: nat)
    requires Plain(rows) && n <= |rows|
    ensures !RestartsAbove(rows, n)
  {
    if n > 0 {
      PlainHasNoRestart(rows, n - 1);
      NoRestartInRow(rows, n - 1, |rows[n - 1].cells|);
    }
  }

  lemma {:induction false} NoRestartInRow(rows: seq<Row>, r: nat, n: nat)
    requires Plain(rows) && r < |rows| && n <= |rows[r].cells|
    ensures !RestartsIn(rows[r], n)
    decreases n
  {
    if n > 0 { NoRestartInRow(rows, r, n - 1); }
  }

  /** A second pass reports no change, fills nothing and leaves the table as the first pass left it. */
  lemma SecondPassChangesNothing(rows: seq<Row>)
    ensures Expanded(Expanded(rows)) == Expanded(rows)
    ensures !RestartsAbove(Expanded(rows), |Expanded(rows)|)
    ensures FilledAbove(Expanded(rows), |Expanded(rows)|) == 0
  {
    ExpandedIsPlain(rows);
    PlainIsLeftAlone(Expanded(rows));
  }
}
