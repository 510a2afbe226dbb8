/**
 * Vertically merged cells of word-processing tables.
 *
 * A merged block is stored as one `restart` cell and, row by row below it, `continue` cells that are
 * empty on paper. Before a document is parsed every continue cell gets the content of the restart
 * cell it belongs to. This is the meaning of that expansion, without the dictionary of the one pass
 * that computes it: a cell's chain is followed upward, one row at a time.
 */
module MergedCells {
  import opened Options

  /** An integer attribute: missing, not a number, or a number of either sign. */
  datatype Attribute = Missing | Unreadable | Number(value: int)

  datatype Merge = Unmerged | Restart | Continue

  /** A child of a cell other than its properties: a nested table, or anything else. */
  datatype Node = Leaf(xml: string) | Table(rows: seq<Row>)

  datatype Cell = Cell(gridSpan: Attribute, merge: Merge, content: seq<Node>)

  datatype Row = Row(gridBefore: Attribute, cells: seq<Cell>)

  datatype Position = Position(row: nat, cell: nat)

  function PositiveInt(a: Attribute, absent: nat): nat {
    if a.Number? && a.value >= 0 then a.value else absent
  }

  function Span(cell: Cell): nat {
    PositiveInt(cell.gridSpan, 1)
  }

  /** The grid column in which the cell with index c begins; for c == |cells|, the row's end. */
  function Column(row: Row, c: nat): nat
    requires c <= |row.cells|
  {
    if c == 0 then PositiveInt(row.gridBefore, 0) else Column(row, c - 1) + Span(row.cells[c - 1])
  }

  predicate Covers(row: Row, c: nat, column: int)
    requires c < |row.cells|
  {
    Column(row, c) <= column < Column(row, c) + Span(row.cells[c])
  }

  predicate InTable(rows: seq<Row>, p: Position) {
    p.row < |rows| && p.cell < |rows[p.row].cells|
  }

  function CellAt(rows: seq<Row>, p: Position): Cell
    requires InTable(rows, p)
  {
    rows[p.row].cells[p.cell]
  }

  // ----- which restart cell a cell belongs to -----

  /**
   * The restart cell that cell c of row r shows: itself, or the one shown by the row above in the
   * first of its own columns in which that row shows one.
   */
  function Master(rows: seq<Row>, r: nat, c: nat): (m: Option<Position>)
    requires InTable(rows, Position(r, c))
    ensures m.Some? ==> InTable(rows, m.value) && CellAt(rows, m.value).merge == Restart
    ensures rows[r].cells[c].merge == Unmerged ==> m == None
    decreases r, 0, 0
  {
    match rows[r].cells[c].merge
    case Unmerged => None
    case Restart => Some(Position(r, c))
    case Continue =>
      var column := Column(rows[r], c);
      FirstAbove(rows, r, column, column + Span(rows[r].cells[c]))
  }

  /** The restart cell shown in a column by the first n cells of row r. */
  function Shown(rows: seq<Row>, r: nat, n: nat, column: int): (m: Option<Position>)
    requires r < |rows| && n <= |rows[r].cells|
    ensures m.Some? ==> InTable(rows, m.value) && CellAt(rows, m.value).merge == Restart
    decreases r, 1, n
  {
    if n == 0 then None
    else if Covers(rows[r], n - 1, column) then Master(rows, r, n - 1)
    else Shown(rows, r, n - 1, column)
  }

  /** The restart cell shown in a column by the row above row r. */
  function Above(rows: seq<Row>, r: nat, column: int): (m: Option<Position>)
    requires r <= |rows|
    ensures m.Some? ==> InTable(rows, m.value) && CellAt(rows, m.value).merge == Restart
    decreases r, -1, 0
  {
    if r == 0 then None else Shown(rows, r - 1, |rows[r - 1].cells|, column)
  }

  function FirstAbove(rows: seq<Row>, r: nat, lo: int, hi: int): (m: Option<Position>)
    requires r < |rows|
    ensures m.Some? ==> InTable(rows, m.value) && CellAt(rows, m.value).merge == Restart
    decreases r, -1, hi - lo
  {
    if lo >= hi then None
    else if Above(rows, r, lo).Some? then Above(rows, r, lo)
    else FirstAbove(rows, r, lo + 1, hi)
  }

  /** Two cells of neighbouring rows share a grid column. */
  predicate Overlap(upper: Row, d: nat, lower: Row, c: nat)
    requires d < |upper.cells| && c < |lower.cells|
  {
    && Span(upper.cells[d]) > 0
    && Span(lower.cells[c]) > 0
    && Column(upper, d) < Column(lower, c) + Span(lower.cells[c])
    && Column(lower, c) < Column(upper, d) + Span(upper.cells[d])
  }

  /**
   * A chain of overlapping continue cells leads from cell c of row r up to the restart cell p: the
   * meaning of a merged block, with no order among the cells of a row.
   */
  predicate Reaches(rows: seq<Row>, p: Position, r: nat, c: nat)
    requires InTable(rows, p) && InTable(rows, Position(r, c))
    decreases r
  {
    if p.row == r then p.cell == c && CellAt(rows, p).merge == Restart
    else
      && p.row < r
      && rows[r].cells[c].merge == Continue
      && var above := rows[r - 1];
         exists d :: 0 <= d < |above.cells| && Overlap(above, d, rows[r], c) && Reaches(rows, p, r - 1, d)
  }

  lemma {:induction false} ColumnsAscend(row: Row, a: nat, b: nat)
    requires a <= b <= |row.cells|
    ensures Column(row, a) <= Column(row, b)
    decreases b
  {
    if a < b { ColumnsAscend(row, a, b - 1); }
  }

  /** The cells of a row lie side by side: at most one covers a column, and it is the one looked up. */
  lemma {:induction false} ShownIsCovering(rows: seq<Row>, r: nat, n: nat, d: nat, column: int)
    requires r < |rows| && d < n <= |rows[r].cells|
    requires Covers(rows[r], d, column)
    ensures Shown(rows, r, n, column) == Master(rows, r, d)
    decreases n
  {
    if d < n - 1 {
      ColumnsAscend(rows[r], d + 1, n - 1);
      ShownIsCovering(rows, r, n - 1, d, column);
    }
  }

  lemma {:induction false} ShownIsSome(rows: seq<Row>, r: nat, n: nat, column: int) returns (d: nat)
    requires r < |rows| && n <= |rows[r].cells|
    requires Shown(rows, r, n, column).Some?
    ensures d < n && Covers(rows[r], d, column)
    ensures Master(rows, r, d) == Shown(rows, r, n, column)
    decreases n
  {
    if Covers(rows[r], n - 1, column) {
      d := n - 1;
    } else {
      d := ShownIsSome(rows, r, n - 1, column);
    }
  }

  /** The search across a cell's columns ends at the first one in which the row above shows something. */
  lemma {:induction false} FirstAboveIsFirst(rows: seq<Row>, r: nat, lo: int, hi: int) returns (column: int)
    requires r < |rows|
    requires FirstAbove(rows, r, lo, hi).Some?
    ensures lo <= column < hi
    ensures Above(rows, r, column) == FirstAbove(rows, r, lo, hi)
    ensures forall k :: lo <= k < column ==> Above(rows, r, k) == None
    decreases hi - lo
  {
    if Above(rows, r, lo).Some? {
      column := lo;
    } else {
      column := FirstAboveIsFirst(rows, r, lo + 1, hi);
    }
  }

  lemma {:induction false} FirstAboveMisses(rows: seq<Row>, r: nat, lo: int, hi: int, column: int)
    requires r < |rows| && lo <= column < hi
    requires Above(rows, r, column).Some?
    ensures FirstAbove(rows, r, lo, hi).Some?
    decreases hi - lo
  {
    if lo < column { FirstAboveMisses(rows, r, lo + 1, hi, column); }
  }

  /** What the look-up finds is the top of a chain. */
  lemma {:induction false} MasterIsReached(rows: seq<Row>, r: nat, c: nat)
    requires InTable(rows, Position(r, c))
    requires Master(rows, r, c).Some?
    ensures Reaches(rows, Master(rows, r, c).value, r, c)
    decreases r
  {
    if rows[r].cells[c].merge == Continue {
      var begin := Column(rows[r], c);
      var column := FirstAboveIsFirst(rows, r, begin, begin + Span(rows[r].cells[c]));
      var d := ShownIsSome(rows, r - 1, |rows[r - 1].cells|, column);
      MasterIsReached(rows, r - 1, d);
      ReachesUp(rows, Master(rows, r, c).value, r - 1, d);
      assert Overlap(rows[r - 1], d, rows[r], c);
    }
  }

  lemma {:induction false} ReachesUp(rows: seq<Row>, p: Position, r: nat, c: nat)
    requires InTable(rows, p) && InTable(rows, Position(r, c))
    requires Reaches(rows, p, r, c)
    ensures p.row <= r && CellAt(rows, p).merge == Restart
    decreases r
  {
    if p.row < r {
      var above := rows[r - 1];
      var d :| 0 <= d < |above.cells| && Overlap(above, d, rows[r], c) && Reaches(rows, p, r - 1, d);
      ReachesUp(rows, p, r - 1, d);
    }
  }

  /** A cell at the foot of any chain is found to belong to some restart cell. */
  lemma {:induction false} ReachedHasMaster(rows: seq<Row>, p: Position, r: nat, c: nat)
    requires InTable(rows, p) && InTable(rows, Position(r, c))
    requires Reaches(rows, p, r, c)
    ensures Master(rows, r, c).Some?
    decreases r
  {
    if p.row < r {
      var above := rows[r - 1];
      var d :| 0 <= d < |above.cells| && Overlap(above, d, rows[r], c) && Reaches(rows, p, r - 1, d);
      ReachedHasMaster(rows, p, r - 1, d);
      var begin := Column(rows[r], c);
      var column := if Column(above, d) < begin then begin else Column(above, d);
      ShownIsCovering(rows, r - 1, |above.cells|, d, column);
      FirstAboveMisses(rows, r, begin, begin + Span(rows[r].cells[c]), column);
    }
  }

  ghost predicate HasChain(rows: seq<Row>, r: nat, c: nat)
    requires InTable(rows, Position(r, c))
  {
    exists p: Position :: InTable(rows, p) && Reaches(rows, p, r, c)
  }

  /**
   * A cell is expanded exactly when some chain leads up to a restart cell, and then it shows a
   * restart cell that a chain leads to.
   */
  lemma MasterIsTopOfChain(rows: seq<Row>, r: nat, c: nat)
    requires InTable(rows, Position(r, c))
    ensures Master(rows, r, c).Some? <==> HasChain(rows, r, c)
    ensures Master(rows, r, c).Some? ==> Reaches(rows, Master(rows, r, c).value, r, c)
  {
    if Master(rows, r, c).Some? { MasterIsReached(rows, r, c); }
    forall p: Position | InTable(rows, p) && Reaches(rows, p, r, c) ensures Master(rows, r, c).Some? {
      ReachedHasMaster(rows, p, r, c);
    }
  }

  /** The row shows nothing in a column: no cell of it that covers the column belongs to a block. */
  ghost predicate ShowsNothing(rows: seq<Row>, r: nat, column: int)
    requires r < |rows|
  {
    forall d: nat :: d < |rows[r].cells| && Covers(rows[r], d, column) ==> Master(rows, r, d) == None
  }

  /**
   * A continue cell takes over from the cell of the row above that covers the leftmost of its columns
   * in which anything is shown.
   */
  lemma LeftmostColumnDecides(rows: seq<Row>, above: nat, c: nat) returns (d: nat, column: int)
    requires InTable(rows, Position(above + 1, c))
    requires rows[above + 1].cells[c].merge == Continue && Master(rows, above + 1, c).Some?
    ensures Covers(rows[above + 1], c, column)
    ensures d < |rows[above].cells| && Covers(rows[above], d, column)
    ensures Master(rows, above + 1, c) == Master(rows, above, d)
    ensures forall k :: Column(rows[above + 1], c) <= k < column ==> ShowsNothing(rows, above, k)
  {
    var r := above + 1;
    var cells := rows[above].cells;
    var begin := Column(rows[r], c);
    column := FirstAboveIsFirst(rows, r, begin, begin + Span(rows[r].cells[c]));
    d := ShownIsSome(rows, above, |cells|, column);
    ShownIsCovering(rows, above, |cells|, d, column);
    forall k | begin <= k < column ensures ShowsNothing(rows, above, k) {
      assert Above(rows, r, k) == None;
      forall e: nat | e < |cells| && Covers(rows[above], e, k) ensures Master(rows, above, e) == None {
        ShownIsCovering(rows, above, |cells|, e, k);
      }
    }
  }
}
