/** docreader/parser/docx_merge.py: what the expansion of merged cells counts and reports. */
module FillCounts {
  import opened Expansion
  import opened MergedCells

  /** A continue cell that some chain leads up from. */
  ghost predicate IsFilled(rows: seq<Row>, r: nat, c: nat)
    requires r < |rows| && c < |rows[r].cells|
  {
    rows[r].cells[c].merge == Continue && HasChain(rows, r, c)
  }

  /** The filled cells of the rows before r, and the first n of row r. */
  ghost function FilledCells(rows: seq<Row>, r: nat, n: nat): set<Position>
    requires r <= |rows|
  {
    set i: nat, c: nat | i < |rows| && c < |rows[i].cells| && (i < r || (i == r && c < n)) && IsFilled(rows, i, c)
      :: Position(i, c)
  }

  lemma OneMoreCell(rows: seq<Row>, r: nat, n: nat)
    requires r < |rows| && n < |rows[r].cells|
    ensures |FilledCells(rows, r, n + 1)| == |FilledCells(rows, r, n)| + if IsFilled(rows, r, n) then 1 else 0
  {
    var before, p := FilledCells(rows, r, n), Position(r, n);
    assert p !in before;
    if IsFilled(rows, r, n) {
      assert FilledCells(rows, r, n + 1) == before + {p};
    } else {
      assert FilledCells(rows, r, n + 1) == before;
    }
  }

  lemma {:induction false} FilledInCounts(rows: seq<Row>, r: nat, n: nat)
    requires r < |rows| && n <= |rows[r].cells|
    ensures |FilledCells(rows, r, n)| == |FilledCells(rows, r, 0)| + FilledIn(rows, r, n)
  {
    if n > 0 {
      FilledInCounts(rows, r, n - 1);
      OneMoreCell(rows, r, n - 1);
      MasterIsTopOfChain(rows, r, n - 1);
    }
  }

  lemma {:induction false} FilledAboveCounts(rows: seq<Row>, r: nat)
    requires r <= |rows|
    ensures |FilledCells(rows, r, 0)| == FilledAbove(rows, r)
  {
    if r == 0 {
      assert FilledCells(rows, 0, 0) == {};
    } else {
      var n := |rows[r - 1].cells|;
      FilledAboveCounts(rows, r - 1);
      FilledInCounts(rows, r - 1, n);
      assert FilledCells(rows, r - 1, n) == FilledCells(rows, r, 0);
    }
  }

  /** The count is the number of continue cells that a chain leads up from. */
  lemma CountIsExact(rows: seq<Row>)
    ensures FilledAbove(rows, |rows|) == |FilledCells(rows, |rows|, 0)|
  {
    FilledAboveCounts(rows, |rows|);
  }

  lemma {:induction false} RestartsInIs(row: Row, n: nat)
    requires n <= |row.cells|
    ensures RestartsIn(row, n) <==> exists c :: 0 <= c < n && row.cells[c].merge == Restart
  {
    if n > 0 { RestartsInIs(row, n - 1); }
  }

  /** A change is reported exactly if some cell of the table is a restart cell. */
  lemma {:induction false} ChangeIsExact(rows: seq<Row>, r: nat)
    requires r <= |rows|
    ensures RestartsAbove(rows, r) <==>
              exists i, c :: 0 <= i < r && 0 <= c < |rows[i].cells| && rows[i].cells[c].merge == Restart
  {
    if r > 0 {
      ChangeIsExact(rows, r - 1);
      RestartsInIs(rows[r - 1], |rows[r - 1].cells|);
    }
  }

  /** Cells stand side by side from the row's own offset on, one column wide unless told otherwise. */
  lemma CellsStandSideBySide(row: Row, c: nat)
    requires c < |row.cells|
    ensures var before, span := row.gridBefore, row.cells[c].gridSpan;
      && Column(row, 0) == (if before.Number? && before.value >= 0 then before.value else 0)
      && Column(row, c + 1) == Column(row, c) + if span.Number? && span.value >= 0 then span.value else 1
  {
  }
}
