/** docreader/parser/mhtml_parser.py: `_normalize_markdown`. */
module MarkdownNormalizer {
  import opened MarkdownFences
  import opened Options
  import Text

  /**
   * A line worth keeping: inside a fence (its first and last line included) as it
   * is, outside trimmed; `gap` when blank lines came before it.
   */
  datatype Item = Item(line: string, fenced: bool, gap: bool)

  /** What the lines hold, read with the given fence open and a blank line pending or not. */
  function Scan(lines: seq<string>, fence: Option<Fence>, gap: bool): seq<Item> {
    if lines == [] then []
    else
      var line, rest := lines[0], lines[1..];
      if fence.Some? then
        [Item(line, true, false)] + Scan(rest, if IsClosingFence(line, fence.value) then None else fence, false)
      else if OpeningFence(line).Some? then
        [Item(line, true, gap)] + Scan(rest, OpeningFence(line), false)
      else if Blank(line) then Scan(rest, None, true)
      else [Item(TrimLine(line), false, gap)] + Scan(rest, None, false)
  }

  /** The items as lines, one empty line for a gap unless it would come first. */
  function Render(items: seq<Item>, first: bool): seq<string> {
    if items == [] then []
    else (if items[0].gap && !first then [""] else []) + [items[0].line] + Render(items[1..], false)
  }

  /** Items as Scan makes them. */
  ghost predicate Settled(items: seq<Item>, fence: Option<Fence>) {
    items == [] ||
    var it := items[0];
    if fence.Some? then
      it.fenced && !it.gap && Settled(items[1..], if IsClosingFence(it.line, fence.value) then None else fence)
    else if it.fenced then
      OpeningFence(it.line).Some? && Settled(items[1..], OpeningFence(it.line))
    else
      && !Blank(it.line) && OpeningFence(it.line).None? && TrimLine(it.line) == it.line
      && Settled(items[1..], None)
  }

  lemma {:induction false} ScanSettles(lines: seq<string>, fence: Option<Fence>, gap: bool)
    ensures Settled(Scan(lines, fence, gap), fence)
  {
    if lines != [] {
      var line, rest := lines[0], lines[1..];
      if fence.Some? {
        ScanSettles(rest, if IsClosingFence(line, fence.value) then None else fence, false);
      } else if OpeningFence(line).Some? {
        ScanSettles(rest, OpeningFence(line), false);
      } else if Blank(line) {
        ScanSettles(rest, None, true);
      } else {
        TrimLineSettles(line);
        ScanSettles(rest, None, false);
      }
    }
  }

  /** The items without a gap in front. */
  function NoFirstGap(items: seq<Item>): seq<Item> {
    if items == [] then [] else [items[0].(gap := false)] + items[1..]
  }

  lemma ScanOne(line: string, rest: seq<string>, fence: Option<Fence>, gap: bool)
    ensures Scan([line] + rest, fence, gap) ==
      if fence.Some? then
        [Item(line, true, false)] + Scan(rest, if IsClosingFence(line, fence.value) then None else fence, false)
      else if OpeningFence(line).Some? then
        [Item(line, true, gap)] + Scan(rest, OpeningFence(line), false)
      else if Blank(line) then Scan(rest, None, true)
      else [Item(TrimLine(line), false, gap)] + Scan(rest, None, false)
  {
    assert ([line] + rest)[1..] == rest;
  }

  /** The fence open behind an item. */
  function FenceAfter(it: Item, fence: Option<Fence>): Option<Fence> {
    if fence.Some? then (if IsClosingFence(it.line, fence.value) then None else fence)
    else if it.fenced then OpeningFence(it.line) else None
  }

  lemma RenderOne(items: seq<Item>, first: bool)
    requires items != []
    ensures var tail := [items[0].line] + Render(items[1..], false);
      Render(items, first) == if items[0].gap && !first then [""] + tail else tail
  {
  }

  /** Reading a settled item's line, behind a pending blank line or not. */
  lemma ScanItem(it: Item, rest: seq<string>, fence: Option<Fence>, gap: bool)
    requires Settled([it], fence) && (fence.Some? ==> !gap)
    ensures Scan([it.line] + rest, fence, gap) == [it.(gap := gap)] + Scan(rest, FenceAfter(it, fence), false)
  {
    ScanOne(it.line, rest, fence, gap);
  }

  lemma ScanGap(lines: seq<string>)
    ensures Scan([""] + lines, None, false) == Scan(lines, None, true)
  {
    ScanOne("", lines, None, false);
  }

  lemma SettledFirst(items: seq<Item>, fence: Option<Fence>)
    requires items != [] && Settled(items, fence)
    ensures Settled([items[0]], fence) && Settled(items[1..], FenceAfter(items[0], fence))
    ensures fence.Some? ==> !items[0].gap
  {
    assert [items[0]][1..] == [];
  }

  /** Reading what was rendered gives the items back. */
  lemma {:induction false} ScanOfRender(items: seq<Item>, fence: Option<Fence>, first: bool)
    requires Settled(items, fence)
    ensures Scan(Render(items, first), fence, false) == if first then NoFirstGap(items) else items
  {
    if items != [] {
      var it, rest := items[0], items[1..];
      SettledFirst(items, fence);
      ScanOfRender(rest, FenceAfter(it, fence), false);
      RenderOne(items, first);
      var gap := it.gap && !first;
      ScanItem(it, Render(rest, false), fence, gap);
      if gap {
        ScanGap([it.line] + Render(rest, false));
      }
      assert items == [it] + rest;
    }
  }

  // ----- the document as text -----

  /** "\r\n" and "\r" become "\n". */
  function UnifyNewlines(text: string): string {
    if text == "" then ""
    else if text[0] != '\r' then [text[0]] + UnifyNewlines(text[1..])
    else if |text| > 1 && text[1] == '\n' then ['\n'] + UnifyNewlines(text[2..])
    else ['\n'] + UnifyNewlines(text[1..])
  }

  function DropLastEmpty(lines: seq<string>): seq<string> {
    if lines != [] && lines[|lines| - 1] == "" then DropLastEmpty(lines[..|lines| - 1]) else lines
  }

  predicate IsNewline(c: char) { c == '\n' }

  function StripNewlines(s: string): string {
    Text.StripRight(Text.StripLeft(s, IsNewline), IsNewline)
  }

  function OutputLines(text: string): seq<string> {
    Render(Scan(Text.Lines(UnifyNewlines(text)), None, false), true)
  }

  function Normalized(text: string): string {
    StripNewlines(Text.Join(OutputLines(text), "\n"))
  }

  function Emit(output: seq<string>, pending: bool, line: string): seq<string> {
    if pending && output != [] then output + [""] + [line] else output + [line]
  }

  lemma EmitThenRender(output: seq<string>, it: Item, rest: seq<Item>)
    ensures output + Render([it] + rest, output == [])
         == Emit(output, it.gap, it.line) + Render(rest, false)
  {
    assert ([it] + rest)[1..] == rest;
  }

  /** The loop over the lines. */
  method NormalizeMarkdown(text: string) returns (result: string)
    ensures result == Normalized(text)
  {
    var lines := Text.Lines(UnifyNewlines(text));
    var output: seq<string> := [];
    var pendingBlank := false;
    var fence: Option<Fence> := None;
    for i := 0 to |lines|
      invariant fence.Some? ==> !pendingBlank
      invariant output + Render(Scan(lines[i..], fence, pendingBlank), output == []) == OutputLines(text)
    {
      var line := lines[i];
      ghost var rest := lines[i + 1..];
      assert lines[i..] == [line] + rest;
      ScanOne(line, rest, fence, pendingBlank);
      if fence.Some? {
        var closes := IsClosingFence(line, fence.value);
        EmitThenRender(output, Item(line, true, false), Scan(rest, if closes then None else fence, false));
        output := output + [line];
        if closes {
          fence := None;
        }
        continue;
      }
      var opening := OpeningFence(line);
      if opening.Some? {
        EmitThenRender(output, Item(line, true, pendingBlank), Scan(rest, opening, false));
        if pendingBlank && output != [] {
          output := output + [""];
        }
        pendingBlank := false;
        output := output + [line];
        fence := opening;
        continue;
      }
      if Blank(line) {
        pendingBlank := true;
        continue;
      }
      EmitThenRender(output, Item(TrimLine(line), false, pendingBlank), Scan(rest, None, false));
      if pendingBlank && output != [] {
        output := output + [""];
      }
      pendingBlank := false;
      output := output + [TrimLine(line)];
    }
    assert output == OutputLines(text);
    result := StripNewlines(Text.Join(output, "\n"));
  }

  // ----- lines and text -----

  /** A line holds no line break. */
  ghost predicate Clean(line: string) {
    forall i :: 0 <= i < |line| ==> line[i] != '\n' && line[i] != '\r'
  }

  ghost predicate AllClean(lines: seq<string>) {
    forall i :: 0 <= i < |lines| ==> Clean(lines[i])
  }

  ghost predicate NoReturns(text: string) {
    forall i :: 0 <= i < |text| ==> text[i] != '\r'
  }

  lemma {:induction false} UnifyLeavesNoReturns(text: string)
    ensures NoReturns(UnifyNewlines(text))
  {
    if text != "" {
      if text[0] != '\r' {
        UnifyLeavesNoReturns(text[1..]);
      } else if |text| > 1 && text[1] == '\n' {
        UnifyLeavesNoReturns(text[2..]);
      } else {
        UnifyLeavesNoReturns(text[1..]);
      }
    }
  }

  lemma {:induction false} UnifyOfNoReturns(text: string)
    requires NoReturns(text)
    ensures UnifyNewlines(text) == text
  {
    if text != "" {
      UnifyOfNoReturns(text[1..]);
    }
  }

  lemma FindNewline(s: string, i: nat)
    requires i <= |s| && (i < |s| ==> s[i] == '\n') && forall k :: 0 <= k < i ==> s[k] != '\n'
    ensures Text.Find(s, "\n", 0) == if i < |s| then i else |s| + 1
  {
    Text.FindFinds(s, "\n", 0);
    forall k | 0 <= k <= |s| ensures Text.At(s, "\n", k) <==> k < |s| && s[k] == '\n' {
      if k < |s| {
        assert s[k..k + 1] == [s[k]];
      }
    }
  }

  /** The lines of a text without returns hold no line break. */
  lemma {:induction false} LinesAreClean(s: string)
    requires NoReturns(s)
    ensures AllClean(Text.Lines(s))
    decreases |s|
  {
    Text.FindFinds(s, "\n", 0);
    var i := Text.Find(s, "\n", 0);
    forall k | 0 <= k < i && k < |s| ensures s[k] != '\n' {
      assert !Text.At(s, "\n", k);
      assert s[k..k + 1] == [s[k]];
    }
    if i + 1 <= |s| {
      LinesAreClean(s[i + 1..]);
    }
  }

  /** Splitting joined lines gives them back. */
  lemma {:induction false} LinesOfJoin(lines: seq<string>)
    requires lines != [] && AllClean(lines)
    ensures Text.Lines(Text.Join(lines, "\n")) == lines
  {
    var s := Text.Join(lines, "\n");
    var line := lines[0];
    if |lines| == 1 {
      FindNewline(s, |line|);
    } else {
      LinesOfJoin(lines[1..]);
      var rest := Text.Join(lines[1..], "\n");
      assert s == line + "\n" + rest;
      FindNewline(s, |line|);
      assert s[..|line|] == line && s[|line| + 1..] == rest;
    }
  }

  lemma {:induction false} JoinOneMore(lines: seq<string>, x: string)
    requires lines != []
    ensures Text.Join(lines + [x], "\n") == Text.Join(lines, "\n") + "\n" + x
  {
    if |lines| > 1 {
      assert (lines + [x])[1..] == lines[1..] + [x];
      JoinOneMore(lines[1..], x);
    }
  }

  lemma {:induction false} JoinHasNoReturns(lines: seq<string>)
    requires AllClean(lines)
    ensures NoReturns(Text.Join(lines, "\n"))
  {
    if |lines| > 1 {
      JoinHasNoReturns(lines[1..]);
    }
  }

  lemma StripRightOne(s: string)
    ensures Text.StripRight(s + "\n", IsNewline) == Text.StripRight(s, IsNewline)
  {
    assert (s + "\n")[..|s + "\n"| - 1] == s;
  }

  /** Stripping newlines at the end drops the empty lines there. */
  lemma {:induction false} StripDropsLastEmpty(lines: seq<string>)
    requires AllClean(lines)
    ensures Text.StripRight(Text.Join(lines, "\n"), IsNewline) == Text.Join(DropLastEmpty(lines), "\n")
  {
    if lines != [] {
      var n := |lines| - 1;
      var front := lines[..n];
      assert front + [lines[n]] == lines;
      if n > 0 {
        JoinOneMore(front, lines[n]);
      }
      if lines[n] == "" {
        StripDropsLastEmpty(front);
        StripRightOne(Text.Join(front, "\n"));
        if n > 0 {
          assert Text.Join(lines, "\n") == Text.Join(front, "\n") + "\n";
        }
      } else {
        EndsInLine(lines, lines[n]);
      }
    }
  }

  lemma EndsInLine(lines: seq<string>, last: string)
    requires lines != [] && last == lines[|lines| - 1] && last != "" && Clean(last)
    ensures Text.StripRight(Text.Join(lines, "\n"), IsNewline) == Text.Join(lines, "\n")
  {
    var front := lines[..|lines| - 1];
    assert front + [last] == lines;
    if front != [] {
      JoinOneMore(front, last);
    }
    var s := Text.Join(lines, "\n");
    assert s[|s| - 1] == last[|last| - 1];
  }

  lemma StripLeftOfLine(lines: seq<string>)
    requires lines == [] || (lines[0] != "" && Clean(lines[0]))
    ensures Text.StripLeft(Text.Join(lines, "\n"), IsNewline) == Text.Join(lines, "\n")
  {
    if lines != [] {
      assert Text.Join(lines, "\n")[0] == lines[0][0];
    }
  }

  // ----- the output -----

  ghost predicate CleanItems(items: seq<Item>) {
    forall i :: 0 <= i < |items| ==> Clean(items[i].line)
  }

  lemma {:induction false} ScanIsClean(lines: seq<string>, fence: Option<Fence>, gap: bool)
    requires AllClean(lines)
    ensures CleanItems(Scan(lines, fence, gap))
  {
    if lines != [] {
      var line, rest := lines[0], lines[1..];
      TrimRightIs(line);
      assert AllClean(rest);
      if fence.Some? {
        ScanIsClean(rest, if IsClosingFence(line, fence.value) then None else fence, false);
      } else if OpeningFence(line).Some? {
        ScanIsClean(rest, OpeningFence(line), false);
      } else if Blank(line) {
        ScanIsClean(rest, None, true);
      } else {
        ScanIsClean(rest, None, false);
      }
    }
  }

  lemma {:induction false} RenderIsClean(items: seq<Item>, first: bool)
    requires CleanItems(items)
    ensures AllClean(Render(items, first))
  {
    if items != [] {
      assert CleanItems(items[1..]);
      RenderIsClean(items[1..], false);
    }
  }

  /** Items without the empty fenced lines at their end. */
  function DropEmptyItems(items: seq<Item>): seq<Item> {
    if items != [] && items[|items| - 1].line == "" then DropEmptyItems(items[..|items| - 1]) else items
  }

  lemma {:induction false} RenderOneMore(items: seq<Item>, it: Item, first: bool)
    ensures Render(items + [it], first) ==
            Render(items, first) + (if it.gap && !(first && items == []) then [""] else []) + [it.line]
  {
    if items == [] {
      assert items + [it] == [it];
      assert [it][1..] == [];
    } else {
      assert (items + [it])[1..] == items[1..] + [it];
      RenderOneMore(items[1..], it, false);
    }
  }

  /** An empty line inside a fence has no gap in front. */
  ghost predicate EmptyHasNoGap(items: seq<Item>) {
    forall i :: 0 <= i < |items| && items[i].line == "" ==> !items[i].gap
  }

  lemma {:induction false} SettledEmptyHasNoGap(items: seq<Item>, fence: Option<Fence>)
    requires Settled(items, fence)
    ensures EmptyHasNoGap(items)
    ensures items != [] && fence.None? ==> items[0].line != ""
  {
    if items != [] {
      var it := items[0];
      if fence.Some? {
        SettledEmptyHasNoGap(items[1..], if IsClosingFence(it.line, fence.value) then None else fence);
      } else if it.fenced {
        SettledEmptyHasNoGap(items[1..], OpeningFence(it.line));
      } else {
        SettledEmptyHasNoGap(items[1..], None);
      }
      assert items == [it] + items[1..];
    }
  }

  lemma {:induction false} DropEmptyRenders(items: seq<Item>)
    requires EmptyHasNoGap(items)
    ensures DropLastEmpty(Render(items, true)) == Render(DropEmptyItems(items), true)
  {
    if items != [] {
      var n := |items| - 1;
      assert items[..n] + [items[n]] == items;
      RenderOneMore(items[..n], items[n], true);
      if items[n].line == "" {
        DropEmptyRenders(items[..n]);
        assert Render(items, true)[..|Render(items, true)| - 1] == Render(items[..n], true);
      }
    }
  }

  lemma {:induction false} SettledPrefix(items: seq<Item>, fence: Option<Fence>, n: nat)
    requires Settled(items, fence) && n <= |items|
    ensures Settled(items[..n], fence)
  {
    if n > 0 {
      var it := items[0];
      assert items[..n][1..] == items[1..][..n - 1];
      SettledPrefix(items[1..], if fence.Some? then (if IsClosingFence(it.line, fence.value) then None else fence)
                                else if it.fenced then OpeningFence(it.line) else None, n - 1);
    }
  }

  lemma {:induction false} DropEmptyIsPrefix(items: seq<Item>) returns (n: nat)
    ensures n <= |items| && DropEmptyItems(items) == items[..n]
    ensures n > 0 ==> items[n - 1].line != ""
  {
    if items != [] && items[|items| - 1].line == "" {
      n := DropEmptyIsPrefix(items[..|items| - 1]);
    } else {
      n := |items|;
    }
  }

  /** The items of a document. */
  function ItemsOf(text: string): seq<Item> {
    Scan(Text.Lines(UnifyNewlines(text)), None, false)
  }

  lemma ItemsAreGood(text: string)
    ensures Settled(ItemsOf(text), None) && CleanItems(ItemsOf(text))
  {
    UnifyLeavesNoReturns(text);
    LinesAreClean(UnifyNewlines(text));
    ScanSettles(Text.Lines(UnifyNewlines(text)), None, false);
    ScanIsClean(Text.Lines(UnifyNewlines(text)), None, false);
  }

  /** What is written: the rendered items without the empty lines at the end. */
  lemma NormalizedIs(text: string) returns (kept: seq<Item>)
    ensures kept == DropEmptyItems(ItemsOf(text))
    ensures Settled(kept, None) && CleanItems(kept)
    ensures kept != [] ==> kept[|kept| - 1].line != ""
    ensures Normalized(text) == Text.Join(Render(kept, true), "\n")
  {
    var items := ItemsOf(text);
    ItemsAreGood(text);
    SettledEmptyHasNoGap(items, None);
    RenderIsClean(items, true);
    var lines := Render(items, true);
    StripLeftOfLine(lines);
    StripDropsLastEmpty(lines);
    DropEmptyRenders(items);
    var n := DropEmptyIsPrefix(items);
    SettledPrefix(items, None, n);
    kept := items[..n];
  }

  /**
   * Meaning: reading the result gives the items of the input, fenced lines
   * verbatim, other lines trimmed, gaps and order kept; only empty lines at the
   * end of an unclosed fence and blank lines at the very start are gone.
   */
  lemma NormalizedKeepsItems(text: string)
    ensures ItemsOf(Normalized(text)) == NoFirstGap(DropEmptyItems(ItemsOf(text)))
  {
    var kept := NormalizedIs(text);
    var lines := Render(kept, true);
    RenderIsClean(kept, true);
    JoinHasNoReturns(lines);
    UnifyOfNoReturns(Normalized(text));
    if kept == [] {
      assert Text.Lines("") == [""];
      assert Scan([""][1..], None, true) == [];
    } else {
      assert lines != [];
      LinesOfJoin(lines);
      ScanOfRender(kept, None, true);
    }
  }

  lemma RenderIgnoresFirstGap(items: seq<Item>)
    ensures Render(NoFirstGap(items), true) == Render(items, true)
  {
    if items != [] {
      assert NoFirstGap(items)[1..] == items[1..];
    }
  }

  /** Normalising again changes nothing. */
  lemma NormalizedIsIdempotent(text: string)
    ensures Normalized(Normalized(text)) == Normalized(text)
  {
    var kept := NormalizedIs(text);
    NormalizedKeepsItems(text);
    var again := NormalizedIs(Normalized(text));
    var settled := NoFirstGap(kept);
    if kept != [] {
      assert settled[|settled| - 1].line == kept[|kept| - 1].line;
    }
    assert again == settled;
    RenderIgnoresFirstGap(kept);
  }

  /**
   * Outside fences a blank line is empty and never follows another one or the
   * start, and every other line is trimmed.
   */
  ghost predicate Tidy(lines: seq<string>, fence: Option<Fence>, afterBlank: bool) {
    lines == [] ||
    var line, rest := lines[0], lines[1..];
    if fence.Some? then Tidy(rest, if IsClosingFence(line, fence.value) then None else fence, false)
    else if OpeningFence(line).Some? then Tidy(rest, OpeningFence(line), false)
    else if Blank(line) then line == "" && !afterBlank && Tidy(rest, None, true)
    else TrimLine(line) == line && Tidy(rest, None, false)
  }

  lemma TidyItem(it: Item, rest: seq<string>, fence: Option<Fence>, afterBlank: bool)
    requires Settled([it], fence) && Tidy(rest, FenceAfter(it, fence), false)
    ensures Tidy([it.line] + rest, fence, afterBlank)
  {
    assert ([it.line] + rest)[1..] == rest;
  }

  lemma TidyGap(lines: seq<string>)
    requires Tidy(lines, None, true)
    ensures Tidy([""] + lines, None, false)
  {
    assert ([""] + lines)[1..] == lines;
  }

  lemma {:induction false} RenderIsTidy(items: seq<Item>, fence: Option<Fence>, first: bool)
    requires Settled(items, fence)
    ensures Tidy(Render(items, first), fence, first)
  {
    if items != [] {
      var it, rest := items[0], items[1..];
      SettledFirst(items, fence);
      RenderIsTidy(rest, FenceAfter(it, fence), false);
      RenderOne(items, first);
      var gap := it.gap && !first;
      TidyItem(it, Render(rest, false), fence, gap || first);
      if gap {
        TidyGap([it.line] + Render(rest, false));
      }
    }
  }

  /** The written document is tidy, and neither begins nor ends with an empty line. */
  lemma NormalizedIsTidy(text: string)
    requires Normalized(text) != ""
    ensures var lines := Text.Lines(Normalized(text));
      Tidy(lines, None, true) && lines[0] != "" && lines[|lines| - 1] != ""
  {
    var kept := NormalizedIs(text);
    var lines := Render(kept, true);
    RenderIsClean(kept, true);
    assert lines != [];
    LinesOfJoin(lines);
    RenderIsTidy(kept, None, true);
    EndsAreLines(kept);
  }

  lemma EndsAreLines(items: seq<Item>)
    requires items != [] && Settled(items, None) && items[|items| - 1].line != ""
    ensures var lines := Render(items, true);
      lines != [] && lines[0] != "" && lines[|lines| - 1] != ""
  {
    SettledEmptyHasNoGap(items, None);
    RenderOne(items, true);
    var n := |items| - 1;
    assert items[..n] + [items[n]] == items;
    RenderOneMore(items[..n], items[n], true);
  }

  // ----- fenced lines, verbatim -----

  /** The lines from every opening fence to its close, as they stand. */
  function FencedLines(lines: seq<string>, fence: Option<Fence>): seq<string> {
    if lines == [] then []
    else
      var line, rest := lines[0], lines[1..];
      if fence.Some? then [line] + FencedLines(rest, if IsClosingFence(line, fence.value) then None else fence)
      else if OpeningFence(line).Some? then [line] + FencedLines(rest, OpeningFence(line))
      else FencedLines(rest, None)
  }

  function Fenced(items: seq<Item>): seq<string> {
    if items == [] then [] else (if items[0].fenced then [items[0].line] else []) + Fenced(items[1..])
  }

  lemma FencedOne(it: Item, rest: seq<Item>)
    ensures Fenced([it] + rest) == (if it.fenced then [it.line] else []) + Fenced(rest)
  {
    assert ([it] + rest)[1..] == rest;
  }

  lemma {:induction false} ScanKeepsFenced(lines: seq<string>, fence: Option<Fence>, gap: bool)
    ensures Fenced(Scan(lines, fence, gap)) == FencedLines(lines, fence)
  {
    if lines != [] {
      var line, rest := lines[0], lines[1..];
      if fence.Some? {
        var next := if IsClosingFence(line, fence.value) then None else fence;
        ScanKeepsFenced(rest, next, false);
        FencedOne(Item(line, true, false), Scan(rest, next, false));
      } else if OpeningFence(line).Some? {
        ScanKeepsFenced(rest, OpeningFence(line), false);
        FencedOne(Item(line, true, gap), Scan(rest, OpeningFence(line), false));
      } else if Blank(line) {
        ScanKeepsFenced(rest, None, true);
      } else {
        ScanKeepsFenced(rest, None, false);
        FencedOne(Item(TrimLine(line), false, gap), Scan(rest, None, false));
      }
    }
  }

  lemma {:induction false} DropEmptyKeepsFenced(items: seq<Item>)
    ensures var all, kept := Fenced(items), Fenced(DropEmptyItems(items));
      kept <= all && forall i :: |kept| <= i < |all| ==> all[i] == ""
  {
    if items != [] && items[|items| - 1].line == "" {
      var n := |items| - 1;
      DropEmptyKeepsFenced(items[..n]);
      FencedOneMore(items[..n], items[n]);
      assert items[..n] + [items[n]] == items;
    }
  }

  lemma {:induction false} FencedOneMore(items: seq<Item>, it: Item)
    ensures Fenced(items + [it]) == Fenced(items) + if it.fenced then [it.line] else []
  {
    if items == [] {
      assert items + [it] == [it] && [it][1..] == [];
    } else {
      assert (items + [it])[1..] == items[1..] + [it];
      FencedOneMore(items[1..], it);
    }
  }

  /**
   * Every line from an opening fence to its close is kept as it stands; only
   * empty lines at the very end may go.
   */
  lemma FencesAreVerbatim(text: string)
    ensures var before := FencedLines(Text.Lines(UnifyNewlines(text)), None);
      var after := FencedLines(Text.Lines(UnifyNewlines(Normalized(text))), None);
      after <= before && forall i :: |after| <= i < |before| ==> before[i] == ""
  {
    NormalizedKeepsItems(text);
    ScanKeepsFenced(Text.Lines(UnifyNewlines(text)), None, false);
    ScanKeepsFenced(Text.Lines(UnifyNewlines(Normalized(text))), None, false);
    DropEmptyKeepsFenced(ItemsOf(text));
    var kept := DropEmptyItems(ItemsOf(text));
    if kept != [] {
      FencedOne(kept[0].(gap := false), kept[1..]);
    }
  }
}
