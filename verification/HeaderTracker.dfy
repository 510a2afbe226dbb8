/**
 * docreader/splitter/header_hook.py: which table headers are in force while
 * the splitter walks through the pieces of a text.
 */
module HeaderTracking {
  import opened Options
  import opened Text

  datatype Priority = Priority(rank: int)

  /**
   * One HeaderTrackerHook: `starts` gives the header text of the start
   * pattern's match, `ends` says whether the end pattern matches.
   */
  datatype Hook = Hook(priority: Priority, starts: string -> Option<string>, ends: string -> bool)

  const TABLE := Priority(15)

  // ----- the pure tests on table text -----

  /** A stripped line the table-row pattern matches. */
  predicate IsTableRow(line: string) {
    |line| >= 2 && line[0] == '|' && line[|line| - 1] == '|'
  }

  predicate HasTableRow(text: string) {
    exists i :: 0 <= i < |Lines(text)| && IsTableRow(Strip(Lines(text)[i]))
  }

  function ColumnCount(line: string): nat {
    var line := Strip(line);
    if line == "" || line[0] != '|' then 0
    else
      var parts := SplitOn(line, "|");
      var parts := if Strip(parts[0]) == "" then parts[1..] else parts;
      var parts := if parts != [] && Strip(parts[|parts| - 1]) == "" then parts[..|parts| - 1] else parts;
      |parts|
  }

  function FirstRowColumns(lines: seq<string>): nat {
    if lines == [] then 0
    else if IsTableRow(Strip(lines[0])) then ColumnCount(Strip(lines[0]))
    else FirstRowColumns(lines[1..])
  }

  function RowColumns(text: string): nat {
    FirstRowColumns(Lines(text))
  }

  function FirstHeaderColumns(lines: seq<string>): nat {
    if lines == [] then 0
    else
      var line := Strip(lines[0]);
      if line == "" || Contains(line, "---") || ColumnCount(line) == 0 then FirstHeaderColumns(lines[1..])
      else ColumnCount(line)
  }

  function HeaderColumns(header: string): nat {
    FirstHeaderColumns(Lines(header))
  }

  predicate HeaderColumnMismatch(headers: string, unit: string) {
    HeaderColumns(headers) > 0 && RowColumns(unit) > 0 && HeaderColumns(headers) != RowColumns(unit)
  }

  predicate EndsWithParagraphBreak(split: string) {
    var trimmed := StripRight(split, c => c in " \t\r");
    EndsWith(trimmed, "\n\n") || EndsWith(trimmed, "\r\n\r\n")
  }

  /** The column-name line holds only pipes and blanks. */
  predicate IsEmptyHeaderRow(header: string) {
    var newline := Find(header, "\n", 0);
    newline <= |header| &&
    var row := Strip(header[..newline]);
    row != "" && forall i :: 0 <= i < |row| ==> row[i] in "| \t"
  }

  function FirstSeparator(lines: seq<string>): string {
    if lines == [] then ""
    else if Contains(lines[0], "---") then lines[0] + "\n"
    else FirstSeparator(lines[1..])
  }

  function SeparatorLine(header: string): string {
    FirstSeparator(Lines(header))
  }

  // ----- the state machine on values -----

  /** `extend` is the key set of `pending_extend`, whose values are all True. */
  datatype State = State(
    active: map<Priority, string>,
    ended: set<Priority>,
    extend: set<Priority>,
    tableBreak: bool,
    endedNow: bool)

  const FRESH := State(map[], {}, {}, false, false)

  function ClearTable(st: State): State {
    st.(ended := st.ended + {TABLE}, active := st.active - {TABLE}, extend := st.extend - {TABLE})
  }

  /** A paragraph break seen in the previous unit ends the table here. */
  function AfterBreak(st: State, split: string): State {
    var s := st.(endedNow := false, tableBreak := false);
    if !st.tableBreak || TABLE !in st.active then s
    else ClearTable(s).(endedNow := RowColumns(split) > 0)
  }

  function EndHeader(st: State, p: Priority): State {
    st.(ended := st.ended + {p}, active := st.active - {p}, extend := st.extend - {p})
  }

  function EndHeaders(hooks: seq<Hook>, st: State, split: string): State {
    if hooks == [] then st
    else
      var h := hooks[|hooks| - 1];
      var s := EndHeaders(hooks[..|hooks| - 1], st, split);
      if h.priority in s.active && h.ends(split) then EndHeader(s, h.priority) else s
  }

  function CheckColumns(st: State, split: string): State {
    if TABLE !in st.active || TABLE in st.extend then st
    else if EndsWithParagraphBreak(split) then st.(tableBreak := true)
    else if HeaderColumnMismatch(st.active[TABLE], split) then ClearTable(st).(endedNow := true)
    else st
  }

  function Filled(header: string, split: string): string {
    if HasTableRow(split) then split + SeparatorLine(header) else header
  }

  function FilledAt(active: map<Priority, string>, at: set<Priority>, split: string): map<Priority, string> {
    map p | p in active :: if p in at then Filled(active[p], split) else active[p]
  }

  /** An empty column-name row is filled from the first data row. */
  function Extended(st: State, split: string): State {
    st.(active := FilledAt(st.active, st.extend, split), extend := {})
  }

  function StartHeader(st: State, begun: map<Priority, string>, h: Hook, split: string)
    : (State, map<Priority, string>)
  {
    if h.priority in st.active || h.priority in st.ended || h.starts(split).None? then (st, begun)
    else
      var header := h.starts(split).value;
      var s := st.(active := st.active[h.priority := header]);
      (if IsEmptyHeaderRow(header) then s.(extend := s.extend + {h.priority}) else s,
       begun[h.priority := header])
  }

  function StartHeaders(hooks: seq<Hook>, st: State, split: string): (State, map<Priority, string>) {
    if hooks == [] then (st, map[])
    else
      var (s, begun) := StartHeaders(hooks[..|hooks| - 1], st, split);
      StartHeader(s, begun, hooks[|hooks| - 1], split)
  }

  function BeforeStarts(hooks: seq<Hook>, st: State, split: string): State {
    Extended(CheckColumns(EndHeaders(hooks, AfterBreak(st, split), split), split), split)
  }

  /** The state after one unit. */
  function Step(hooks: seq<Hook>, st: State, split: string): State {
    var s := StartHeaders(hooks, BeforeStarts(hooks, st, split), split).0;
    if s.active == map[] then s.(ended := {}) else s
  }

  /** The headers one unit switched on: what `update` returns. */
  function Started(hooks: seq<Hook>, st: State, split: string): map<Priority, string> {
    StartHeaders(hooks, BeforeStarts(hooks, st, split), split).1
  }

  function Run(hooks: seq<Hook>, st: State, splits: seq<string>): State {
    if splits == [] then st
    else Step(hooks, Run(hooks, st, splits[..|splits| - 1]), splits[|splits| - 1])
  }

  lemma HasElement(s: set<Priority>)
    ensures s != {} ==> exists x :: x in s
  {
    assert (forall x :: x !in s) ==> s == {};
  }

  predicate IsTop(m: Priority, s: set<Priority>) {
    m in s && forall k | k in s :: k.rank <= m.rank
  }

  lemma {:induction false} HasTop(s: set<Priority>)
    requires s != {}
    ensures exists m :: IsTop(m, s)
  {
    HasElement(s);
    var x :| x in s;
    var rest := s - {x};
    if rest == {} {
      forall k | k in s ensures k.rank <= x.rank {
        assert k == x || k in rest;
      }
      assert IsTop(x, s);
    } else {
      HasTop(rest);
      var m :| IsTop(m, rest);
      var top := if x.rank < m.rank then m else x;
      forall k | k in s ensures k.rank <= top.rank {
        assert k == x || k in rest;
      }
      assert IsTop(top, s);
    }
  }

  function Top(s: set<Priority>): (m: Priority)
    requires s != {}
    ensures IsTop(m, s)
  {
    HasTop(s);
    var m :| IsTop(m, s);
    m
  }

  /** The headers in force, highest priority first, one per line. */
  function Headers(active: map<Priority, string>): string
    decreases |active|
  {
    if active == map[] then ""
    else
      var top := Top(active.Keys);
      var rest := active - {top};
      assert |rest.Keys| == |active.Keys - {top}| < |active|;
      if rest == map[] then active[top] else active[top] + "\n" + Headers(rest)
  }

  // ----- what every run keeps -----

  ghost predicate Invariant(hooks: seq<Hook>, st: State) {
    && (forall p :: p in st.active ==> p !in st.ended && IsPriority(hooks, p))
    && (forall p :: p in st.extend ==> p in st.active)
    && (st.tableBreak ==> TABLE in st.active)
    && (st.endedNow ==> TABLE !in st.active)
  }

  ghost predicate IsPriority(hooks: seq<Hook>, p: Priority) {
    exists i :: 0 <= i < |hooks| && hooks[i].priority == p
  }

  /** What the end phases may do to `st`: move active headers to the ended ones. */
  ghost predicate OnlyEnds(st: State, s: State) {
    && (forall p :: p in s.active ==> p in st.active && p !in s.ended)
    && (forall p :: p in st.active ==> p in s.active || p in s.ended)
    && (forall p :: p in s.extend ==> p in s.active && p in st.extend)
    && (forall p :: p in st.ended ==> p in s.ended)
  }

  /** After the end phase no header is active whose end pattern matched. */
  lemma {:induction false} EndHeadersKeeps(hooks: seq<Hook>, st: State, split: string)
    requires OnlyEnds(st, st)
    ensures OnlyEnds(st, EndHeaders(hooks, st, split))
    ensures EndHeaders(hooks, st, split).tableBreak == st.tableBreak
    ensures EndHeaders(hooks, st, split).endedNow == st.endedNow
    ensures forall i :: 0 <= i < |hooks| && hooks[i].ends(split) ==>
              hooks[i].priority !in EndHeaders(hooks, st, split).active
  {
    if hooks != [] {
      EndHeadersKeeps(hooks[..|hooks| - 1], st, split);
    }
  }

  /**
   * What the start phase may do from `st`: switch on `begun`, priorities that
   * were neither active nor ended, some of which then wait for their column
   * names.
   */
  ghost predicate OnlyStarts(hooks: seq<Hook>, st: State, s: State, begun: map<Priority, string>) {
    && s == st.(active := s.active, extend := s.extend)
    && (forall p :: p in s.active <==> p in st.active || p in begun)
    && (forall p :: p in begun ==> p !in st.active && p !in st.ended && IsPriority(hooks, p))
    && (forall p :: p in s.extend ==> p in begun)
  }

  lemma PriorityExtends(hooks: seq<Hook>, p: Priority)
    requires hooks != []
    ensures IsPriority(hooks, p) <==> p == hooks[|hooks| - 1].priority || IsPriority(hooks[..|hooks| - 1], p)
  {
    var front := hooks[..|hooks| - 1];
    if IsPriority(front, p) {
      var i :| 0 <= i < |front| && front[i].priority == p;
      assert hooks[i].priority == p;
    }
  }

  lemma StartHeaderKeeps(hooks: seq<Hook>, st: State, s: State, begun: map<Priority, string>, split: string)
    requires hooks != [] && OnlyStarts(hooks[..|hooks| - 1], st, s, begun)
    ensures var (t, more) := StartHeader(s, begun, hooks[|hooks| - 1], split); OnlyStarts(hooks, st, t, more)
  {
    var h := hooks[|hooks| - 1];
    var (t, more) := StartHeader(s, begun, h, split);
    forall p | p in more
      ensures p !in st.active && p !in st.ended && IsPriority(hooks, p)
    {
      PriorityExtends(hooks, p);
    }
  }

  lemma {:induction false} StartHeadersKeeps(hooks: seq<Hook>, st: State, split: string)
    requires st.extend == {}
    ensures var (s, begun) := StartHeaders(hooks, st, split); OnlyStarts(hooks, st, s, begun)
  {
    if hooks != [] {
      var front := hooks[..|hooks| - 1];
      StartHeadersKeeps(front, st, split);
      var (s, begun) := StartHeaders(front, st, split);
      StartHeaderKeeps(hooks, st, s, begun, split);
    }
  }

  lemma BeforeStartsKeeps(hooks: seq<Hook>, st: State, split: string)
    requires Invariant(hooks, st)
    ensures var s := BeforeStarts(hooks, st, split);
      && s.extend == {}
      && (forall p :: p in s.active ==> p in st.active && p !in s.ended)
      && (s.tableBreak ==> TABLE in s.active)
      && (s.endedNow ==> TABLE in s.ended)
      && (forall i :: 0 <= i < |hooks| && hooks[i].ends(split) ==> hooks[i].priority !in s.active)
      && (RowColumns(split) == 0 ==> !s.endedNow)
  {
    var a := AfterBreak(st, split);
    assert OnlyEnds(a, a);
    EndHeadersKeeps(hooks, a, split);
    var b := EndHeaders(hooks, a, split);
    var c := CheckColumns(b, split);
    assert OnlyEnds(b, c);
    assert Extended(c, split).extend == {};
  }

  /**
   * One unit keeps the invariant; a header waiting for its column names was
   * switched on by that very unit, and nothing ended by it is active after it.
   */
  lemma StepKeeps(hooks: seq<Hook>, st: State, split: string)
    requires Invariant(hooks, st)
    ensures Invariant(hooks, Step(hooks, st, split))
    ensures forall p :: p in Step(hooks, st, split).extend ==> p in Started(hooks, st, split)
    ensures forall p :: p in Started(hooks, st, split) ==> p !in BeforeStarts(hooks, st, split).ended
    ensures forall p :: p in Step(hooks, st, split).active ==> p in Started(hooks, st, split) || p in st.active
  {
    BeforeStartsKeeps(hooks, st, split);
    StartHeadersKeeps(hooks, BeforeStarts(hooks, st, split), split);
  }

  /** The invariant holds after any number of units, whatever the patterns. */
  lemma {:induction false} RunKeeps(hooks: seq<Hook>, splits: seq<string>)
    ensures Invariant(hooks, Run(hooks, FRESH, splits))
  {
    if splits != [] {
      RunKeeps(hooks, splits[..|splits| - 1]);
      StepKeeps(hooks, Run(hooks, FRESH, splits[..|splits| - 1]), splits[|splits| - 1]);
    }
  }

  /**
   * Hooks that treat an empty unit as the default table hook does: its end
   * pattern matches it and its start pattern does not.
   */
  ghost predicate EndsOnEmpty(hooks: seq<Hook>) {
    forall i :: 0 <= i < |hooks| ==> hooks[i].ends("") && hooks[i].starts("").None?
  }

  lemma NoRowsInEmpty()
    ensures RowColumns("") == 0
  {
    assert Lines("") == [""];
  }

  /** An empty unit switches every header off without reporting an end. */
  lemma EmptyUnitIsQuiet(hooks: seq<Hook>, st: State)
    requires Invariant(hooks, st) && EndsOnEmpty(hooks)
    ensures Step(hooks, st, "").active == map[] && !Step(hooks, st, "").endedNow
  {
    NoRowsInEmpty();
    BeforeStartsKeeps(hooks, st, "");
    var d := BeforeStarts(hooks, st, "");
    NoneActive(hooks, d);
    NothingStarts(hooks, d);
  }

  lemma NoneActive(hooks: seq<Hook>, st: State)
    requires EndsOnEmpty(hooks)
    requires forall p :: p in st.active ==> IsPriority(hooks, p)
    requires forall i :: 0 <= i < |hooks| && hooks[i].ends("") ==> hooks[i].priority !in st.active
    ensures st.active == map[]
  {
    forall p | IsPriority(hooks, p) ensures p !in st.active {
      var i :| 0 <= i < |hooks| && hooks[i].priority == p;
      assert hooks[i].ends("");
    }
  }

  lemma {:induction false} NothingStarts(hooks: seq<Hook>, st: State)
    requires EndsOnEmpty(hooks)
    ensures StartHeaders(hooks, st, "") == (st, map[])
  {
    if hooks != [] {
      assert EndsOnEmpty(hooks[..|hooks| - 1]);
      NothingStarts(hooks[..|hooks| - 1], st);
    }
  }

  // ----- the tracker object -----

  class HeaderTracker {
    const hooks: seq<Hook>
    var active: map<Priority, string>
    var ended: set<Priority>
    var extend: set<Priority>
    var tableBreak: bool
    var endedNow: bool

    constructor (hooks: seq<Hook>)
      ensures this.hooks == hooks && Now() == FRESH
    {
      this.hooks := hooks;
      active, ended, extend, tableBreak, endedNow := map[], {}, {}, false, false;
    }

    function Now(): State
      reads this
    {
      State(active, ended, extend, tableBreak, endedNow)
    }

    method ClearTableHeader()
      modifies this`ended, this`active, this`extend
      ensures Now() == ClearTable(old(Now()))
    {
      ended := ended + {TABLE};
      active := active - {TABLE};
      extend := extend - {TABLE};
    }

    /** Phases 1 and 1b of `update`: headers that end with this unit. */
    method EndPhase(split: string)
      modifies this
      ensures Now() == CheckColumns(EndHeaders(hooks, AfterBreak(old(Now()), split), split), split)
    {
      endedNow := false;
      if tableBreak {
        tableBreak := false;
        if TABLE in active {
          if RowColumns(split) > 0 {
            ClearTableHeader();
            endedNow := true;
          } else {
            ClearTableHeader();
          }
        }
      }
      ghost var start := AfterBreak(old(Now()), split);
      assert Now() == start;
      for i := 0 to |hooks|
        invariant Now() == EndHeaders(hooks[..i], start, split)
      {
        assert hooks[..i + 1][..i] == hooks[..i];
        var p := hooks[i].priority;
        if p in active && hooks[i].ends(split) {
          ended := ended + {p};
          active := active - {p};
          extend := extend - {p};
        }
      }
      assert hooks[..|hooks|] == hooks;
      if TABLE in active && TABLE !in extend {
        if EndsWithParagraphBreak(split) {
          tableBreak := true;
        } else {
          var rowCols := RowColumns(split);
          var headerCols := HeaderColumns(active[TABLE]);
          if rowCols > 0 && headerCols > 0 && rowCols != headerCols {
            ClearTableHeader();
            endedNow := true;
          }
        }
      }
    }

    /** Phase 2: fill in the column names of a header that had none. */
    method ExtendPhase(split: string)
      modifies this`active, this`extend
      ensures Now() == Extended(old(Now()), split)
    {
      var keys := extend;
      ghost var was := active;
      ghost var all := extend;
      assert FilledAt(was, {}, split) == was;
      while keys != {}
        invariant keys == extend <= all
        invariant active == FilledAt(was, all - keys, split)
      {
        var p :| p in keys;
        assert FilledAt(was, all - (keys - {p}), split) ==
               if p in was then active[p := Filled(was[p], split)] else active;
        if p in active && HasTableRow(split) {
          active := active[p := split + SeparatorLine(active[p])];
        }
        extend := extend - {p};
        keys := keys - {p};
      }
      assert all - {} == all;
    }

    method Update(split: string) returns (begun: map<Priority, string>)
      modifies this
      ensures Now() == Step(hooks, old(Now()), split)
      ensures begun == Started(hooks, old(Now()), split)
    {
      EndPhase(split);
      ExtendPhase(split);
      ghost var before := Now();
      begun := map[];
      for i := 0 to |hooks|
        invariant StartHeaders(hooks[..i], before, split).0 == Now()
        invariant StartHeaders(hooks[..i], before, split).1 == begun
      {
        assert hooks[..i + 1][..i] == hooks[..i];
        var h := hooks[i];
        if h.priority !in active && h.priority !in ended {
          var header := h.starts(split);
          if header.Some? {
            active := active[h.priority := header.value];
            begun := begun[h.priority := header.value];
            if IsEmptyHeaderRow(header.value) {
              extend := extend + {h.priority};
            }
          }
        }
      }
      assert hooks[..|hooks|] == hooks;
      if active == map[] {
        ended := {};
      }
    }
  }
}
