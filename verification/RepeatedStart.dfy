/**
 * A text on which two chunks start at one place: a short table, and in front of it a protected match
 * that is empty.
 */
module RepeatedStart {
  import opened HeaderTracking
  import opened Merging
  import opened Options
  import opened Pieces
  import opened ProtectedSpans
  import opened SeparatorSplitting
  import Sorting
  import opened Text
  import opened TextSplitting

  const LEAD := "XXXXXXX"
  const HEAD := "|a|\n|---|\n"

  function Cell(x: char): string {
    ['|', x, '|']
  }

  function Row(x: char): string {
    ['|', x, '|', '\n']
  }

  // ----- reading the table -----

  lemma FirstAt(s: string, c: char, n: nat)
    requires n < |s| && s[n] == c && forall k :: 0 <= k < n ==> s[k] != c
    ensures Find(s, [c], 0) == n
  {
    FindFinds(s, [c], 0);
    assert At(s, [c], n);
    forall k | 0 <= k < n ensures !At(s, [c], k) {
      assert s[k..k + 1][0] == s[k];
    }
  }

  lemma OneColumn(x: char)
    requires 'a' <= x <= 'z'
    ensures Strip(Cell(x)) == Cell(x) && IsTableRow(Cell(x)) && ColumnCount(Cell(x)) == 1
    ensures !Contains(Cell(x), "---")
  {
    var s := Cell(x);
    FirstAt(s, '|', 0);
    FirstAt([x, '|'], '|', 1);
    assert s[1..] == [x, '|'] && [x, '|'][2..] == "" && [x, '|'][..1] == [x];
    assert SplitOn([x, '|'], "|") == [[x]] + SplitOn("", "|");
    assert SplitOn(s, "|") == ["", [x], ""];
    assert s[..2] == ['|', x] && s[..2][..1] == "|";
  }

  lemma LinesOfRow(x: char, rest: string)
    requires 'a' <= x <= 'z'
    ensures Lines(Row(x) + rest) == [Cell(x)] + Lines(rest)
  {
    var s := Row(x) + rest;
    FirstAt(s, '\n', 3);
    assert s[..3] == Cell(x) && s[4..] == rest;
  }

  lemma TableLooks(x: char)
    requires 'a' <= x <= 'z'
    ensures HeaderColumns(HEAD) == 1 && RowColumns(Row(x)) == 1
  {
    OneColumn('a');
    OneColumn(x);
    assert HEAD == Row('a') + "|---|\n";
    LinesOfRow('a', "|---|\n");
    assert Row(x) + "" == Row(x);
    LinesOfRow(x, "");
  }

  lemma HeadIsNotEmpty()
    ensures !IsEmptyHeaderRow(HEAD)
  {
    FirstAt(HEAD, '\n', 3);
    OneColumn('a');
    assert HEAD[..3] == Cell('a') && Cell('a')[1] == 'a';
  }

  // ----- what the tracker reports -----

  predicate Knows(starts: string -> Option<string>) {
    starts("").None? && starts(LEAD).None? && starts(HEAD) == Some(HEAD)
  }

  const IN_TABLE := HeaderTracking.State.State(map[TABLE := HEAD], {}, {}, false, false)

  lemma NothingBegins(starts: string -> Option<string>, unit: string)
    requires starts("").None? && starts(unit).None?
    ensures Step(DefaultHooks(starts), FRESH, unit) == FRESH
  {
    var hooks := DefaultHooks(starts);
    assert EndHeaders(hooks[..0], FRESH, unit) == FRESH;
    assert BeforeStarts(hooks, FRESH, unit) == FRESH;
    assert StartHeaders(hooks[..0], FRESH, unit) == (FRESH, map[]);
  }

  lemma TableBegins(starts: string -> Option<string>)
    requires Knows(starts)
    ensures Step(DefaultHooks(starts), FRESH, HEAD) == IN_TABLE
  {
    var hooks := DefaultHooks(starts);
    HeadIsNotEmpty();
    assert EndHeaders(hooks[..0], FRESH, HEAD) == FRESH;
    assert BeforeStarts(hooks, FRESH, HEAD) == FRESH;
    assert StartHeaders(hooks[..0], FRESH, HEAD) == (FRESH, map[]);
  }

  lemma RowStays(x: char)
    requires 'a' <= x <= 'z'
    ensures !DefaultEnds(Row(x)) && !EndsWithParagraphBreak(Row(x)) && !HeaderColumnMismatch(HEAD, Row(x))
    ensures Apt(HEAD, Row(x))
  {
    TableLooks(x);
    assert Row(x)[2] == '|';
  }

  lemma TableGoesOn(starts: string -> Option<string>, x: char)
    requires Knows(starts) && 'a' <= x <= 'z'
    ensures Step(DefaultHooks(starts), IN_TABLE, Row(x)) == IN_TABLE
  {
    var hooks := DefaultHooks(starts);
    RowStays(x);
    assert EndHeaders(hooks[..0], IN_TABLE, Row(x)) == IN_TABLE;
    assert EndHeaders(hooks, IN_TABLE, Row(x)) == IN_TABLE;
    assert BeforeStarts(hooks, IN_TABLE, Row(x)) == IN_TABLE;
    assert StartHeaders(hooks[..0], IN_TABLE, Row(x)) == (IN_TABLE, map[]);
  }

  const PIECES := [LEAD, "", HEAD, Row('b'), Row('c')]

  lemma HeadersInTable()
    ensures Headers(IN_TABLE.active) == HEAD && Headers(FRESH.active) == ""
  {
    var active := IN_TABLE.active;
    assert active.Keys == {TABLE};
    assert active - {TABLE} == map[];
  }

  lemma TrackedPieces(starts: string -> Option<string>)
    requires Knows(starts)
    ensures var hooks := DefaultHooks(starts);
      && Run(hooks, FRESH, PIECES[..1]) == FRESH && Run(hooks, FRESH, PIECES[..2]) == FRESH
      && Run(hooks, FRESH, PIECES[..3]) == IN_TABLE && Run(hooks, FRESH, PIECES[..4]) == IN_TABLE
      && Run(hooks, FRESH, PIECES[..5]) == IN_TABLE
  {
    var hooks := DefaultHooks(starts);
    NothingBegins(starts, LEAD);
    NothingBegins(starts, "");
    TableBegins(starts);
    TableGoesOn(starts, 'b');
    TableGoesOn(starts, 'c');
    forall k: nat | k < 5
      ensures Run(hooks, FRESH, PIECES[..k + 1]) == Step(hooks, Run(hooks, FRESH, PIECES[..k]), PIECES[k])
    {
      assert PIECES[..k + 1] == PIECES[..k] + [PIECES[k]];
      OneMore(hooks, PIECES[..k], PIECES[k]);
    }
    assert PIECES[..0] == [];
  }

  lemma NothingReported(hooks: seq<Hook>, k: nat)
    requires k < 2 && Run(hooks, FRESH, PIECES[..k + 1]) == FRESH
    ensures var r := Reports(hooks, FRESH, PIECES)[k]; !r.ended && r.headers == ""
  {
    HeadersInTable();
    ReportAt(hooks, FRESH, PIECES, k);
  }

  lemma HeadReported(hooks: seq<Hook>, k: nat)
    requires k < 5 && Run(hooks, FRESH, PIECES[..k + 1]) == IN_TABLE
    ensures Reports(hooks, FRESH, PIECES)[k] == Report(false, HEAD, Apt(HEAD, PIECES[k]))
  {
    HeadersInTable();
    ReportAt(hooks, FRESH, PIECES, k);
  }

  /** The header is reported from its own piece on, and may be put in front of the rows. */
  lemma ReportsOfPieces(starts: string -> Option<string>)
    requires Knows(starts)
    ensures TableReported(Reports(DefaultHooks(starts), FRESH, PIECES))
  {
    var hooks := DefaultHooks(starts);
    TrackedPieces(starts);
    NothingReported(hooks, 0);
    NothingReported(hooks, 1);
    HeadReported(hooks, 2);
    HeadReported(hooks, 3);
    HeadReported(hooks, 4);
    RowStays('b');
    RowStays('c');
  }

  predicate TableReported(rs: seq<Report>) {
    && |rs| == 5 && !rs[0].ended && !rs[1].ended && !rs[2].ended
    && rs[0].headers == "" && rs[1].headers == "" && rs[2].headers == HEAD
    && rs[3] == rs[4] == Report(false, HEAD, true)
  }

  lemma OneMore(hooks: seq<Hook>, before: seq<string>, unit: string)
    ensures Run(hooks, FRESH, before + [unit]) == Step(hooks, Run(hooks, FRESH, before), unit)
  {
    assert (before + [unit])[..|before|] == before;
  }

  // ----- the chunks -----

  const LIMITS := Limits(30, 14)

  lemma PlacesOfPieces()
    ensures Pos(PIECES, 0) == 0 && Pos(PIECES, 1) == 7 && Pos(PIECES, 2) == 7
    ensures Pos(PIECES, 3) == 17 && Pos(PIECES, 4) == 21 && Pos(PIECES, 5) == 25
  {
  }

  lemma MergedPieces(rs: seq<Report>)
    requires TableReported(rs)
    ensures var cs := Merged(PIECES, rs, LIMITS);
      |cs| == 3 && cs[0].start == 0 && cs[1].start == cs[2].start == 7
  {
    PlacesOfPieces();
    assert After(PIECES, rs, LIMITS, 1) == EMPTY;
    assert After(PIECES, rs, LIMITS, 2) == EMPTY;
    assert After(PIECES, rs, LIMITS, 3) == EMPTY;
    assert !Roomy(PIECES, 0, 3, 14, LIMITS) && Roomy(PIECES, 1, 3, 14, LIMITS);
    assert Retain(PIECES, 0, 3, 14, LIMITS) == 1;
    var first := Chop(PIECES, 0, 3, "");
    assert After(PIECES, rs, LIMITS, 4) == Merging.State.State(1, HEAD, [first]);
    assert Roomy(PIECES, 2, 4, 14, LIMITS) && Retain(PIECES, 2, 4, 14, LIMITS) == 2;
    var second := Chop(PIECES, 1, 4, HEAD);
    assert After(PIECES, rs, LIMITS, 5) == Merging.State.State(2, HEAD, [first, second]);
  }

  const TEXT := LEAD + HEAD + Row('b') + Row('c')
  const MATCHES := [Match(7, 7), Match(17, 21), Match(21, 25)]

  const GUARDS := [Guard(7, ""), Guard(17, Row('b')), Guard(21, Row('c'))]

  lemma KeepsFirst(text: string, m: Match, ms: seq<Match>, from: int, size: int)
    requires Within([m] + ms, text) && from <= m.start <= m.end <= |text| && Fits(m, size)
    ensures Within(ms, text)
    ensures Keep(text, [m] + ms, from, size) == [Guard(m.start, text[m.start..m.end])] + Keep(text, ms, m.end, size)
  {
    assert ([m] + ms)[1..] == ms;
  }

  predicate HasParts(text: string) {
    && |text| == 25 && text[0..7] == LEAD && text[7..7] == "" && text[7..17] == HEAD
    && text[17..21] == Row('b') && text[21..25] == Row('c')
  }

  lemma TextHasParts()
    ensures HasParts(TEXT)
  {
  }

  lemma InOrderAlready(ms: seq<Match>)
    requires forall i, j :: 0 <= i < j < |ms| ==> ms[i].start < ms[j].start
    ensures Ordered(ms) == ms
  {
    Sorting.SortIsIdentity(Before, ms);
  }

  lemma MatchesOfText(text: string)
    requires HasParts(text)
    ensures Within(MATCHES, text) && Keep(text, MATCHES, -1, LIMITS.size) == GUARDS
  {
    var a, b, c := Match(7, 7), Match(17, 21), Match(21, 25);
    assert [b] + ([c] + []) == [b, c] && [a] + [b, c] == MATCHES;
    KeepsFirst(text, c, [], 21, LIMITS.size);
    KeepsFirst(text, b, [c] + [], 7, LIMITS.size);
    KeepsFirst(text, a, [b] + ([c] + []), -1, LIMITS.size);
  }

  lemma CutsFirst(text: string, g: Guard, gs: seq<Guard>, point: nat, res: seq<string>)
    requires g.start < |text|
    ensures Isolate(text, [text], 0, [g] + gs, point, res)
         == Isolate(text, [text], 0, gs, g.End(), res + Between(text, point, g.start) + [g.content])
  {
    assert ([g] + gs)[1..] == gs;
  }

  lemma PiecesOfGuards(text: string)
    requires HasParts(text)
    ensures Isolate(text, [text], 0, GUARDS, 0, []) == PIECES
  {
    var last := [Guard(21, Row('c'))];
    CutsFirst(text, Guard(7, ""), [Guard(17, Row('b'))] + last, 0, []);
    CutsFirst(text, Guard(17, Row('b')), last, 7, [LEAD, ""]);
    CutsFirst(text, Guard(21, Row('c')), [], 21, [LEAD, "", HEAD, Row('b')]);
    assert last + [] == last && GUARDS == [Guard(7, "")] + ([Guard(17, Row('b'))] + last);
    assert [] + Between(text, 0, 7) + [""] == [LEAD, ""];
    assert [LEAD, ""] + Between(text, 7, 17) + [Row('b')] == [LEAD, "", HEAD, Row('b')];
    assert [LEAD, "", HEAD, Row('b')] + Between(text, 21, 21) + [Row('c')] == PIECES;
    NothingLeft(text, PIECES);
  }

  lemma NothingLeft(text: string, res: seq<string>)
    ensures Isolate(text, [text], 0, [], |text|, res) == res
  {
    assert [text][1..] == [] && res + Between(text, |text|, |text|) == res;
  }

  lemma PiecesOfParts(cfg: Settings, text: string)
    requires Valid(cfg) && cfg.limits == LIMITS && HasParts(text)
    ensures Within(Ordered(MATCHES), text) && PiecesOf(cfg, text, MATCHES) == PIECES
  {
    InOrderAlready(MATCHES);
    MatchesOfText(text);
    PiecesOfGuards(text);
    assert Split(text, LIMITS.size, cfg.separators) == [text];
  }

  lemma PiecesOfText(cfg: Settings)
    requires Valid(cfg) && cfg.limits == LIMITS
    ensures Within(Ordered(MATCHES), TEXT) && PiecesOf(cfg, TEXT, MATCHES) == PIECES
  {
    TextHasParts();
    PiecesOfParts(cfg, TEXT);
  }

  /**
   * With the default tracker and any separators: the second chunk repeats the table header in front
   * of the empty match and the third one gives both up, so they start at one place.
   */
  lemma StartsCanRepeat(separators: seq<string>, starts: string -> Option<string>)
    requires Usable(separators) && Knows(starts)
    ensures var cfg := Settings(LIMITS, separators, DefaultHooks(starts));
      && Within(Ordered(MATCHES), TEXT)
      && var cs := Chunks(cfg, FRESH, TEXT, MATCHES);
        |cs| == 3 && cs[0].start == 0 && cs[1].start == cs[2].start == 7
  {
    var cfg := Settings(LIMITS, separators, DefaultHooks(starts));
    PiecesOfText(cfg);
    ReportsOfPieces(starts);
    MergedPieces(Reports(cfg.hooks, FRESH, PIECES));
  }
}
