/**
 * docreader/parser/mhtml_parser.py: which lines the normaliser keeps, said of the lines of the text and
 * of the fence open before each.
 */
module MarkdownLines {
  import opened MarkdownFences
  import opened MarkdownNormalizer
  import opened Options
  import Text

  /** The fence open before line i. */
  function Open(lines: seq<string>, i: nat): Option<Fence>
    requires i <= |lines|
  {
    if i == 0 then None
    else
      match Open(lines, i - 1)
      case Some(f) => if IsClosingFence(lines[i - 1], f) then None else Some(f)
      case None => OpeningFence(lines[i - 1])
  }

  /** A line of fenced text, the first and the last included. */
  predicate Fenced(lines: seq<string>, i: nat)
    requires i < |lines|
  {
    Open(lines, i).Some? || OpeningFence(lines[i]).Some?
  }

  predicate Kept(lines: seq<string>, i: nat)
    requires i < |lines|
  {
    Fenced(lines, i) || !Blank(lines[i])
  }

  /** Blank lines stand in front of it, and it is not inside a fence. */
  predicate BehindBlank(lines: seq<string>, i: nat)
    requires i < |lines|
  {
    i > 0 && Open(lines, i).None? && !Kept(lines, i - 1)
  }

  /** What becomes of a line that is kept. */
  function ItemAt(lines: seq<string>, i: nat): Item
    requires i < |lines|
  {
    Item(if Fenced(lines, i) then lines[i] else TrimLine(lines[i]), Fenced(lines, i), BehindBlank(lines, i))
  }

  /** The lines kept from i on, in their order. */
  function KeptFrom(lines: seq<string>, i: nat): (at: seq<nat>)
    requires i <= |lines|
    ensures forall k :: 0 <= k < |at| ==> i <= at[k] < |lines| && Kept(lines, at[k])
    ensures forall a, b :: 0 <= a < b < |at| ==> at[a] < at[b]
    decreases |lines| - i
  {
    if i == |lines| then []
    else if Kept(lines, i) then [i] + KeptFrom(lines, i + 1)
    else KeptFrom(lines, i + 1)
  }

  lemma {:induction false} NoneIsForgotten(lines: seq<string>, i: nat, n: nat)
    requires i <= n < |lines| && Kept(lines, n)
    ensures n in KeptFrom(lines, i)
    decreases n - i
  {
    if i < n { NoneIsForgotten(lines, i + 1, n); }
  }

  function ItemsAt(lines: seq<string>, at: seq<nat>): (items: seq<Item>)
    requires forall k :: 0 <= k < |at| ==> at[k] < |lines|
    ensures |items| == |at| && forall k :: 0 <= k < |at| ==> items[k] == ItemAt(lines, at[k])
  {
    seq(|at|, k requires 0 <= k < |at| => ItemAt(lines, at[k]))
  }

  /** A blank line is pending before line i. */
  predicate Pending(lines: seq<string>, i: nat)
    requires i <= |lines|
  {
    i > 0 && !Kept(lines, i - 1)
  }

  /** Reading one line: the item it becomes, if it is kept, and what is open and pending behind it. */
  lemma ScanLine(lines: seq<string>, i: nat, rest: seq<string>)
    requires i < |lines|
    ensures Scan([lines[i]] + rest, Open(lines, i), Pending(lines, i))
         == (if Kept(lines, i) then [ItemAt(lines, i)] else []) + Scan(rest, Open(lines, i + 1), Pending(lines, i + 1))
  {
    ScanOne(lines[i], rest, Open(lines, i), Pending(lines, i));
    if Open(lines, i).Some? { NothingPendingInFence(lines, i); }
    var tail := Scan(rest, Open(lines, i + 1), Pending(lines, i + 1));
    assert [] + tail == tail;
  }

  lemma NothingPendingInFence(lines: seq<string>, i: nat)
    requires i <= |lines| && Open(lines, i).Some?
    ensures !Pending(lines, i)
  {
  }

  lemma {:induction false} ScanFrom(lines: seq<string>, i: nat)
    requires i <= |lines|
    ensures Scan(lines[i..], Open(lines, i), Pending(lines, i)) == ItemsAt(lines, KeptFrom(lines, i))
    decreases |lines| - i
  {
    if i < |lines| {
      ScanFrom(lines, i + 1);
      assert lines[i..] == [lines[i]] + lines[i + 1..];
      ScanLine(lines, i, lines[i + 1..]);
      ItemsOfMore(lines, i);
    }
  }

  lemma ItemsOfMore(lines: seq<string>, i: nat)
    requires i < |lines|
    ensures ItemsAt(lines, KeptFrom(lines, i))
         == (if Kept(lines, i) then [ItemAt(lines, i)] else []) + ItemsAt(lines, KeptFrom(lines, i + 1))
  {
  }

  /**
   * The items of a text are its lines that are not blank or stand in a fence, all of them and in their
   * order: fenced lines as they are, others trimmed, and each with a gap exactly if a blank line stands
   * right before it outside fences.
   */
  lemma ItemsAreLines(text: string)
    ensures var lines := Text.Lines(UnifyNewlines(text));
      && ItemsOf(text) == ItemsAt(lines, KeptFrom(lines, 0))
      && forall n :: 0 <= n < |lines| && Kept(lines, n) ==> n in KeptFrom(lines, 0)
  {
    var lines := Text.Lines(UnifyNewlines(text));
    ScanFrom(lines, 0);
    assert lines[0..] == lines;
    forall n | 0 <= n < |lines| && Kept(lines, n) ensures n in KeptFrom(lines, 0) {
      NoneIsForgotten(lines, 0, n);
    }
  }

  // ----- one line, and line breaks -----

  lemma EndsInTwo(line: string)
    ensures Text.EndsWith(line, "  ")
       <==> |line| >= 2 && line[|line| - 1] == ' ' && line[|line| - 2] == ' '
  {
    if |line| >= 2 {
      assert line[|line| - 2..] == [line[|line| - 2], line[|line| - 1]];
    }
  }

  /** What is left of a line in front of the blanks at its end. */
  ghost predicate LeftOf(line: string, front: string, blanks: string) {
    line == front + blanks && Blank(blanks) && (front == "" || !IsBlankChar(front[|front| - 1]))
  }

  /** Blanks at the end of a line go, but for the two of a hard break. */
  lemma TrimmedLineIs(line: string)
    ensures exists front, blanks :: LeftOf(line, front, blanks)
                                    && TrimLine(line) == front + (if Text.EndsWith(line, "  ") then "  " else "")
  {
    TrimRightIs(line);
    EndsInTwo(line);
    var front := TrimRight(line);
    assert LeftOf(line, front, line[|front|..]);
    assert front + "" == front;
  }

  /** Text without a return is left alone, and what follows is read on its own. */
  lemma {:induction false} UnifySkips(a: string, b: string)
    requires NoReturns(a)
    ensures UnifyNewlines(a + b) == a + UnifyNewlines(b)
  {
    if a == "" {
      assert a + b == b;
    } else {
      assert (a + b)[1..] == a[1..] + b;
      UnifySkips(a[1..], b);
    }
  }

  /** A return, with the line feed behind it if there is one, becomes one line feed. */
  lemma UnifyReturn(b: string)
    ensures UnifyNewlines("\r\n" + b) == "\n" + UnifyNewlines(b)
    ensures b == "" || b[0] != '\n' ==> UnifyNewlines("\r" + b) == "\n" + UnifyNewlines(b)
  {
    assert ("\r\n" + b)[2..] == b && ("\r" + b)[1..] == b;
  }
}
