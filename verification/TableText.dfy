/** docreader/splitter/header_hook.py: what the tests on table text read off rows. */
module TableText {
  import opened HeaderTracking
  import opened Text

  /** Cells hold no pipe. */
  ghost predicate AreCells(cells: seq<string>) {
    forall i, j :: 0 <= i < |cells| && 0 <= j < |cells[i]| ==> cells[i][j] != '|'
  }

  /** A row as it is written: a pipe before every cell and one behind the last. */
  function RowOf(cells: seq<string>): string {
    if cells == [] then "|" else "|" + cells[0] + RowOf(cells[1..])
  }

  lemma FirstPipe(s: string, n: nat)
    requires n < |s| && s[n] == '|' && forall k :: 0 <= k < n ==> s[k] != '|'
    ensures Find(s, "|", 0) == n
  {
    FindFinds(s, "|", 0);
    assert At(s, "|", n);
    forall k | 0 <= k < n ensures !At(s, "|", k) {
      assert s[k..k + 1][0] == s[k];
    }
  }

  lemma {:induction false} RowIsRow(cells: seq<string>)
    ensures RowOf(cells)[0] == '|' && RowOf(cells)[|RowOf(cells)| - 1] == '|'
    ensures cells != [] ==> |RowOf(cells)| >= 2
  {
    if cells != [] { RowIsRow(cells[1..]); }
  }

  /** Cut at its pipes, a row is its cells between two empty parts. */
  lemma {:induction false} CutAtPipes(cell: string, cells: seq<string>)
    requires AreCells([cell] + cells)
    ensures SplitOn(cell + RowOf(cells), "|") == [cell] + cells + [""]
    decreases |cells|
  {
    var s := cell + RowOf(cells);
    RowIsRow(cells);
    forall k | 0 <= k < |cell| ensures s[k] != '|' {
      assert ([cell] + cells)[0][k] != '|';
    }
    FirstPipe(s, |cell|);
    assert s[..|cell|] == cell;
    if cells == [] {
      assert s[|cell| + 1..] == "" && SplitOn("", "|") == [""];
    } else {
      assert s[|cell| + 1..] == cells[0] + RowOf(cells[1..]);
      assert [cells[0]] + cells[1..] == cells;
      forall i, j | 0 <= i < |cells| && 0 <= j < |cells[i]| ensures cells[i][j] != '|' {
        assert ([cell] + cells)[i + 1] == cells[i];
      }
      CutAtPipes(cells[0], cells[1..]);
    }
  }

  lemma NoBlanksToStrip(s: string)
    requires s != "" && s[0] == '|' && s[|s| - 1] == '|'
    ensures Strip(s) == s
  {
  }

  lemma CutRow(cells: seq<string>)
    requires AreCells(cells)
    ensures SplitOn(RowOf(cells), "|") == [""] + cells + [""]
  {
    forall i, j | 0 <= i < |[""] + cells| && 0 <= j < |([""] + cells)[i]| ensures ([""] + cells)[i][j] != '|' {
      assert i > 0 ==> ([""] + cells)[i] == cells[i - 1];
    }
    CutAtPipes("", cells);
    assert "" + RowOf(cells) == RowOf(cells);
  }

  lemma CountBetween(line: string, cells: seq<string>)
    requires line != "" && Strip(line) == line && line[0] == '|' && SplitOn(line, "|") == [""] + cells + [""]
    ensures ColumnCount(line) == |cells|
  {
    var parts := [""] + cells + [""];
    assert Strip("") == "";
    assert parts[0] == "" && parts[1..] == cells + [""];
    assert (cells + [""])[|cells|] == "" && (cells + [""])[..|cells|] == cells;
  }

  /** A row has as many columns as cells, whatever the cells hold but pipes. */
  lemma RowHasItsColumns(cells: seq<string>)
    requires AreCells(cells) && cells != []
    ensures IsTableRow(RowOf(cells)) && ColumnCount(RowOf(cells)) == |cells|
  {
    RowIsRow(cells);
    NoBlanksToStrip(RowOf(cells));
    CutRow(cells);
    CountBetween(RowOf(cells), cells);
  }

  // ----- the lines of a header -----

  predicate OneLine(s: string) {
    forall i :: 0 <= i < |s| ==> s[i] != '\n'
  }

  lemma FirstNewline(s: string, n: nat)
    requires n < |s| && s[n] == '\n' && forall k :: 0 <= k < n ==> s[k] != '\n'
    ensures Find(s, "\n", 0) == n
  {
    FindFinds(s, "\n", 0);
    assert At(s, "\n", n);
    forall k | 0 <= k < n ensures !At(s, "\n", k) {
      assert s[k..k + 1][0] == s[k];
    }
  }

  lemma LinesOfMore(line: string, rest: string)
    requires OneLine(line)
    ensures Lines(line + "\n" + rest) == [line] + Lines(rest) && Find(line + "\n" + rest, "\n", 0) == |line|
  {
    var s := line + "\n" + rest;
    FirstNewline(s, |line|);
    assert s[..|line|] == line && s[|line| + 1..] == rest;
  }

  predicate BlankCell(s: string) {
    forall i :: 0 <= i < |s| ==> s[i] == ' ' || s[i] == '\t'
  }

  lemma {:induction false} RowChars(cells: seq<string>)
    ensures (forall i :: 0 <= i < |RowOf(cells)| ==> RowOf(cells)[i] in "| \t") <==>
              forall k, j :: 0 <= k < |cells| && 0 <= j < |cells[k]| ==> cells[k][j] in "| \t"
  {
    if cells != [] {
      RowChars(cells[1..]);
      var head, rest := "|" + cells[0], RowOf(cells[1..]);
      assert RowOf(cells) == head + rest;
      if forall i :: 0 <= i < |RowOf(cells)| ==> RowOf(cells)[i] in "| \t" {
        forall j | 0 <= j < |cells[0]| ensures cells[0][j] in "| \t" {
          assert RowOf(cells)[j + 1] == cells[0][j];
        }
        forall i | 0 <= i < |rest| ensures rest[i] in "| \t" {
          assert RowOf(cells)[|head| + i] == rest[i];
        }
        forall k, j | 0 <= k < |cells| && 0 <= j < |cells[k]| ensures cells[k][j] in "| \t" {
          if k > 0 { assert cells[1..][k - 1] == cells[k]; }
        }
      }
      if forall k, j :: 0 <= k < |cells| && 0 <= j < |cells[k]| ==> cells[k][j] in "| \t" {
        forall k, j | 0 <= k < |cells[1..]| && 0 <= j < |cells[1..][k]| ensures cells[1..][k][j] in "| \t" {
          assert cells[1..][k] == cells[k + 1];
        }
      }
    }
  }

  /** A header waits for its names exactly if every cell of its first row is blank. */
  lemma EmptyHeaderIff(cells: seq<string>, rest: string)
    requires AreCells(cells) && cells != [] && OneLine(RowOf(cells))
    ensures IsEmptyHeaderRow(RowOf(cells) + "\n" + rest) <==> forall k :: 0 <= k < |cells| ==> BlankCell(cells[k])
  {
    var row := RowOf(cells);
    LinesOfMore(row, rest);
    RowIsRow(cells);
    NoBlanksToStrip(row);
    assert (row + "\n" + rest)[..|row|] == row;
    RowChars(cells);
    if forall k :: 0 <= k < |cells| ==> BlankCell(cells[k]) {
      forall k, j | 0 <= k < |cells| && 0 <= j < |cells[k]| ensures cells[k][j] in "| \t" {
        assert BlankCell(cells[k]);
      }
    }
    if forall k, j :: 0 <= k < |cells| && 0 <= j < |cells[k]| ==> cells[k][j] in "| \t" {
      forall k | 0 <= k < |cells| ensures BlankCell(cells[k]) {
        forall j | 0 <= j < |cells[k]| ensures cells[k][j] == ' ' || cells[k][j] == '\t' {
          assert cells[k][j] in "| \t" && cells[k][j] != '|';
        }
      }
    }
  }

  /** The separator line of a header is its first line with three dashes. */
  lemma SeparatorIsFirstWithDashes(row: string, line: string, rest: string)
    requires OneLine(row) && OneLine(line) && !Contains(row, "---") && Contains(line, "---")
    ensures SeparatorLine(row + "\n" + (line + "\n" + rest)) == line + "\n"
  {
    LinesOfMore(row, line + "\n" + rest);
    LinesOfMore(line, rest);
    var below := Lines(line + "\n" + rest);
    assert below == [line] + Lines(rest) && FirstSeparator(below) == line + "\n";
    var all := Lines(row + "\n" + (line + "\n" + rest));
    assert all == [row] + below && all[0] == row && all[1..] == below;
    assert FirstSeparator(all) == FirstSeparator(below);
  }
}
