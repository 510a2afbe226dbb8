/**
 * docreader/parser/mhtml_parser.py: the fence tests of the Markdown normaliser
 * (section 4.5 of the CommonMark Spec).
 */
module MarkdownFences {
  import opened Options

  datatype Fence = Fence(mark: char, length: nat)

  /** How many leading characters of s, from k on, are c. */
  function RunLength(s: string, k: nat, c: char): (n: nat)
    requires k <= |s|
    ensures k + n <= |s|
    decreases |s| - k
  {
    if k < |s| && s[k] == c then 1 + RunLength(s, k + 1, c) else 0
  }

  predicate IsBlankChar(c: char) { c == ' ' || c == '\t' }

  /** `not s.strip(" \t")` */
  predicate Blank(s: string) {
    forall i :: 0 <= i < |s| ==> IsBlankChar(s[i])
  }

  function OpeningFence(line: string): Option<Fence> {
    var indent := RunLength(line, 0, ' ');
    if indent > 3 || indent == |line| then None
    else if line[indent] != '`' && line[indent] != '~' then None
    else
      var length := RunLength(line, indent, line[indent]);
      if length < 3 then None else Some(Fence(line[indent], length))
  }

  predicate IsClosingFence(line: string, f: Fence) {
    var indent := RunLength(line, 0, ' ');
    indent <= 3 &&
    var length := RunLength(line, indent, f.mark);
    length >= f.length && Blank(line[indent + length..])
  }

  // ----- the same rules said in one piece -----

  /** Characters a..b are all c. */
  ghost predicate AllOf(s: string, a: nat, b: nat, c: char) {
    b <= |s| && forall i :: a <= i < b ==> s[i] == c
  }

  /** Up to three blanks, then a run of at least three backticks or tildes. */
  ghost predicate OpensWith(line: string, indent: nat, f: Fence) {
    && indent <= 3 && AllOf(line, 0, indent, ' ')
    && (f.mark == '`' || f.mark == '~') && f.length >= 3
    && AllOf(line, indent, indent + f.length, f.mark)
    && (indent + f.length < |line| ==> line[indent + f.length] != f.mark)
  }

  /**
   * Up to three blanks, a run of the fence's character at least as long as the
   * fence, then nothing but blanks and tabs.
   */
  ghost predicate ClosesWith(line: string, indent: nat, length: nat, f: Fence) {
    && indent <= 3 && AllOf(line, 0, indent, ' ')
    && length >= f.length && AllOf(line, indent, indent + length, f.mark)
    && Blank(line[indent + length..])
  }

  lemma {:induction false} RunIs(s: string, k: nat, c: char)
    requires k <= |s|
    ensures AllOf(s, k, k + RunLength(s, k, c), c)
    ensures k + RunLength(s, k, c) < |s| ==> s[k + RunLength(s, k, c)] != c
    decreases |s| - k
  {
    if k < |s| && s[k] == c {
      RunIs(s, k + 1, c);
    }
  }

  lemma {:induction false} RunIsUnique(s: string, k: nat, c: char, n: nat)
    requires k + n <= |s| && AllOf(s, k, k + n, c) && (k + n < |s| ==> s[k + n] != c)
    ensures RunLength(s, k, c) == n
    decreases n
  {
    if n > 0 {
      RunIsUnique(s, k + 1, c, n - 1);
    }
  }

  /** The opening test recognises exactly the lines the rule describes. */
  lemma OpeningFenceIsExact(line: string, f: Fence)
    ensures OpeningFence(line) == Some(f) <==> exists indent: nat :: OpensWith(line, indent, f)
  {
    var indent := RunLength(line, 0, ' ');
    RunIs(line, 0, ' ');
    if OpeningFence(line) == Some(f) {
      RunIs(line, indent, line[indent]);
      assert OpensWith(line, indent, f);
    }
    if exists k: nat :: OpensWith(line, k, f) {
      var k: nat :| OpensWith(line, k, f);
      RunIsUnique(line, 0, ' ', k);
      RunIsUnique(line, k, f.mark, f.length);
    }
  }

  /** And so does the closing test. */
  lemma ClosingFenceIsExact(line: string, f: Fence)
    requires f.mark == '`' || f.mark == '~'
    requires f.length >= 3
    ensures IsClosingFence(line, f) <==> exists indent: nat, length: nat :: ClosesWith(line, indent, length, f)
  {
    var indent := RunLength(line, 0, ' ');
    RunIs(line, 0, ' ');
    var length := RunLength(line, indent, f.mark);
    RunIs(line, indent, f.mark);
    if IsClosingFence(line, f) {
      assert ClosesWith(line, indent, length, f);
    }
    if exists k: nat, n: nat :: ClosesWith(line, k, n, f) {
      var k: nat, n: nat :| ClosesWith(line, k, n, f);
      assert line[k] == f.mark;
      RunIsUnique(line, 0, ' ', k);
      if k + n < |line| {
        assert line[k + n..][0] == line[k + n];
      }
      RunIsUnique(line, k, f.mark, n);
    }
  }

  // ----- trimming a line outside fences -----

  function TrimRight(s: string): string {
    if s != "" && IsBlankChar(s[|s| - 1]) then TrimRight(s[..|s| - 1]) else s
  }

  /** Two trailing blanks are a hard line break and stay; other blanks go. */
  function TrimLine(line: string): string {
    if |line| >= 2 && line[|line| - 1] == ' ' && line[|line| - 2] == ' '
    then TrimRight(line) + "  " else TrimRight(line)
  }

  lemma {:induction false} TrimRightIs(s: string)
    ensures var r := TrimRight(s);
      && |r| <= |s| && r == s[..|r|]
      && (r != "" ==> !IsBlankChar(r[|r| - 1]))
      && Blank(s[|r|..])
      && (r == "" <==> Blank(s))
  {
    if s != "" && IsBlankChar(s[|s| - 1]) {
      var front := s[..|s| - 1];
      TrimRightIs(front);
      var r := TrimRight(s);
      assert forall i :: 0 <= i < |front| ==> s[i] == front[i];
      forall i | 0 <= i < |s[|r|..]| ensures IsBlankChar(s[|r|..][i]) {
        if |r| + i < |front| {
          assert front[|r|..][i] == s[|r|..][i];
        }
      }
    }
  }

  lemma TrimRightOf(r: string, tail: string)
    requires (r != "" ==> !IsBlankChar(r[|r| - 1])) && Blank(tail)
    ensures TrimRight(r + tail) == r
    decreases |tail|
  {
    if tail == "" {
      assert r + tail == r;
    } else {
      assert (r + tail)[..|r + tail| - 1] == r + tail[..|tail| - 1];
      TrimRightOf(r, tail[..|tail| - 1]);
    }
  }

  /**
   * A trimmed line is no blank line, opens no fence if it did not before, and
   * is not trimmed again.
   */
  lemma TrimLineSettles(line: string)
    requires !Blank(line) && OpeningFence(line).None?
    ensures !Blank(TrimLine(line)) && OpeningFence(TrimLine(line)).None?
    ensures TrimLine(TrimLine(line)) == TrimLine(line)
  {
    TrimRightIs(line);
    var r := TrimRight(line);
    var t := TrimLine(line);
    assert r <= t && r <= line && r != "";
    assert t[|r| - 1] == r[|r| - 1];
    TrimRightOf(r, "");
    TrimRightOf(r, "  ");
    assert r + "" == r;
    SameOpening(r, t);
    SameOpening(r, line);
  }

  /** Whether a line opens a fence does not depend on blanks at its end. */
  lemma SameOpening(r: string, line: string)
    requires r != "" && r <= line && Blank(line[|r|..]) && !IsBlankChar(r[|r| - 1])
    ensures OpeningFence(line) == OpeningFence(r)
  {
    SameRun(r, line, 0, ' ');
    var indent := RunLength(r, 0, ' ');
    RunIs(r, 0, ' ');
    assert indent < |r|;
    assert line[indent] == r[indent];
    if r[indent] == '`' || r[indent] == '~' {
      SameRun(r, line, indent, r[indent]);
    }
  }

  lemma SameRun(r: string, line: string, k: nat, c: char)
    requires k <= |r| && r <= line && Blank(line[|r|..]) && r != "" && !IsBlankChar(r[|r| - 1]) && c != '\t'
    ensures k < |r| ==> RunLength(line, k, c) == RunLength(r, k, c)
  {
    if k < |r| {
      RunIs(r, k, c);
      var n := RunLength(r, k, c);
      if k + n < |line| {
        if k + n >= |r| {
          assert line[|r|..][k + n - |r|] == line[k + n];
          assert r[|r| - 1] == c;
        }
      }
      RunIsUnique(line, k, c, n);
    }
  }
}
