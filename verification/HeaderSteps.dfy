/**
 * docreader/splitter/header_hook.py: what one unit does to every header, said header by header from
 * the state before it and the unit alone, and what follows for whole texts.
 */
module HeaderSteps {
  import opened HeaderTracking
  import opened Options
  import opened Text

  predicate EndMatches(hooks: seq<Hook>, unit: string, p: Priority) {
    exists i :: 0 <= i < |hooks| && hooks[i].priority == p && hooks[i].ends(unit)
  }

  /** The unit is a table row with another number of columns, and the header does not wait for its names. */
  predicate Switches(st: State, unit: string)
    requires TABLE in st.active
  {
    && TABLE !in st.extend && !EndsWithParagraphBreak(unit)
    && HeaderColumns(st.active[TABLE]) > 0 && RowColumns(unit) > 0
    && HeaderColumns(st.active[TABLE]) != RowColumns(unit)
  }

  /** A header goes: its end pattern matches, or the table was broken off before, or its columns differ. */
  predicate Goes(hooks: seq<Hook>, st: State, unit: string, p: Priority)
    requires p in st.active
  {
    EndMatches(hooks, unit, p) || (p == TABLE && (st.tableBreak || Switches(st, unit)))
  }

  predicate Stays(hooks: seq<Hook>, st: State, unit: string, p: Priority) {
    p in st.active && !Goes(hooks, st, unit, p)
  }

  /** A header that stays keeps its text; one that waits takes the row, and its own separator line behind it. */
  function TextNow(st: State, unit: string, p: Priority): string
    requires p in st.active
  {
    if p in st.extend && HasTableRow(unit) then unit + SeparatorLine(st.active[p]) else st.active[p]
  }

  // ----- the headers that go -----

  lemma {:induction false} EndHeadersAt(hooks: seq<Hook>, st: State, unit: string, p: Priority)
    ensures var s := EndHeaders(hooks, st, unit);
      && (p in s.active <==> p in st.active && !EndMatches(hooks, unit, p))
      && (p in s.active ==> s.active[p] == st.active[p])
      && (p in s.ended <==> p in st.ended || (p in st.active && EndMatches(hooks, unit, p)))
      && (p in s.extend <==> p in st.extend && !(p in st.active && EndMatches(hooks, unit, p)))
      && s.tableBreak == st.tableBreak && s.endedNow == st.endedNow
  {
    if hooks != [] {
      var front, h := hooks[..|hooks| - 1], hooks[|hooks| - 1];
      EndHeadersAt(front, st, unit, p);
      EndHeadersAt(front, st, unit, h.priority);
      MatchExtends(hooks, unit, p);
    }
  }

  lemma MatchExtends(hooks: seq<Hook>, unit: string, p: Priority)
    requires hooks != []
    ensures var h := hooks[|hooks| - 1];
      EndMatches(hooks, unit, p) <==> (h.priority == p && h.ends(unit)) || EndMatches(hooks[..|hooks| - 1], unit, p)
  {
    var front := hooks[..|hooks| - 1];
    if EndMatches(front, unit, p) {
      var i :| 0 <= i < |front| && front[i].priority == p && front[i].ends(unit);
      assert hooks[i] == front[i];
    }
  }

  /** The state when headers may begin, header by header. */
  lemma BeforeStartsAt(hooks: seq<Hook>, st: State, unit: string, p: Priority)
    requires Invariant(hooks, st)
    ensures var s := BeforeStarts(hooks, st, unit);
      && (p in s.active <==> Stays(hooks, st, unit, p))
      && (p in s.active ==> s.active[p] == TextNow(st, unit, p))
      && (p in s.ended <==> p in st.ended || (p in st.active && Goes(hooks, st, unit, p)))
  {
    var a := AfterBreak(st, unit);
    EndHeadersAt(hooks, a, unit, p);
    EndHeadersAt(hooks, a, unit, TABLE);
  }

  lemma BeforeStartsTable(hooks: seq<Hook>, st: State, unit: string)
    requires Invariant(hooks, st)
    ensures var s := BeforeStarts(hooks, st, unit);
      && s.extend == {}
      && (s.tableBreak <==> Breaks(hooks, st, unit)) && (s.endedNow <==> EndSeen(hooks, st, unit))
  {
    var a := AfterBreak(st, unit);
    EndHeadersAt(hooks, a, unit, TABLE);
  }

  /** The table is broken off behind this unit. */
  predicate Breaks(hooks: seq<Hook>, st: State, unit: string) {
    Stays(hooks, st, unit, TABLE) && TABLE !in st.extend && EndsWithParagraphBreak(unit)
  }

  /** The end of the table is reported with this unit: it is a row of another one. */
  predicate EndSeen(hooks: seq<Hook>, st: State, unit: string) {
    TABLE in st.active
    && (if st.tableBreak then RowColumns(unit) > 0 else !EndMatches(hooks, unit, TABLE) && Switches(st, unit))
  }

  // ----- the headers that begin -----

  predicate DistinctPriorities(hooks: seq<Hook>) {
    forall i, j :: 0 <= i < j < |hooks| ==> hooks[i].priority != hooks[j].priority
  }

  /** The header a hook begins with this unit. */
  function Begun(hooks: seq<Hook>, st: State, unit: string, i: nat): Option<string>
    requires i < |hooks|
  {
    if hooks[i].priority in st.active || hooks[i].priority in st.ended then None else hooks[i].starts(unit)
  }

  /** One hook starts no header but its own. */
  lemma OtherStartsAlone(s: State, begun: map<Priority, string>, h: Hook, unit: string, p: Priority)
    requires p != h.priority
    ensures var t := StartHeader(s, begun, h, unit).0;
      && (p in t.active <==> p in s.active) && (p in t.active ==> t.active[p] == s.active[p])
      && (p in t.extend <==> p in s.extend)
  {
  }

  lemma {:induction false} StartHeadersAt(hooks: seq<Hook>, st: State, unit: string, i: nat)
    requires DistinctPriorities(hooks) && i < |hooks| && st.extend == {}
    ensures var (s, p) := (StartHeaders(hooks, st, unit).0, hooks[i].priority);
      && (p in s.active <==> p in st.active || Begun(hooks, st, unit, i).Some?)
      && (p in s.active ==> s.active[p] == if p in st.active then st.active[p] else Begun(hooks, st, unit, i).value)
      && (p in s.extend <==> Begun(hooks, st, unit, i).Some? && IsEmptyHeaderRow(Begun(hooks, st, unit, i).value))
  {
    var n := |hooks| - 1;
    var front := hooks[..n];
    if i < n {
      StartHeadersAt(front, st, unit, i);
      var (s, begun) := StartHeaders(front, st, unit);
      OtherStartsAlone(s, begun, hooks[n], unit, hooks[i].priority);
    } else {
      LastStarts(hooks, st, unit);
    }
  }

  lemma {:induction false} OldTextsStay(hooks: seq<Hook>, st: State, unit: string, p: Priority)
    requires p in st.active
    ensures p in StartHeaders(hooks, st, unit).0.active
    ensures StartHeaders(hooks, st, unit).0.active[p] == st.active[p]
  {
    if hooks != [] { OldTextsStay(hooks[..|hooks| - 1], st, unit, p); }
  }

  lemma LastStarts(hooks: seq<Hook>, st: State, unit: string)
    requires DistinctPriorities(hooks) && hooks != [] && st.extend == {}
    ensures var n := |hooks| - 1;
      var (s, p) := (StartHeaders(hooks, st, unit).0, hooks[n].priority);
      && (p in s.active <==> p in st.active || Begun(hooks, st, unit, n).Some?)
      && (p in s.active ==> s.active[p] == if p in st.active then st.active[p] else Begun(hooks, st, unit, n).value)
      && (p in s.extend <==> Begun(hooks, st, unit, n).Some? && IsEmptyHeaderRow(Begun(hooks, st, unit, n).value))
  {
    var n := |hooks| - 1;
    var front, p := hooks[..n], hooks[n].priority;
    StartHeadersKeeps(front, st, unit);
    NotAmong(hooks, n);
    var (s, begun) := StartHeaders(front, st, unit);
    assert p !in begun;
    if p in st.active { OldTextsStay(front, st, unit, p); }
  }

  lemma NotAmong(hooks: seq<Hook>, n: nat)
    requires DistinctPriorities(hooks) && n < |hooks|
    ensures !IsPriority(hooks[..n], hooks[n].priority)
  {
    forall i | 0 <= i < n ensures hooks[..n][i].priority != hooks[n].priority {
      assert hooks[..n][i] == hooks[i];
    }
  }

  // ----- one unit -----

  /**
   * One unit, header by header. A header is in force after it exactly if it stays, or if it was neither
   * in force nor ended before and its start pattern matches; it waits for its names exactly if it begins
   * with this unit and has none. The ended headers are those ended so far, and all may begin again once
   * none is in force.
   */
  lemma StepIsExact(hooks: seq<Hook>, st: State, unit: string, i: nat)
    requires Invariant(hooks, st) && DistinctPriorities(hooks) && i < |hooks|
    ensures var (s, p) := (Step(hooks, st, unit), hooks[i].priority);
      && (p in s.active <==> Stays(hooks, st, unit, p) || Begun(hooks, st, unit, i).Some?)
      && (Stays(hooks, st, unit, p) ==> s.active[p] == TextNow(st, unit, p))
      && (Begun(hooks, st, unit, i).Some? ==> s.active[p] == Begun(hooks, st, unit, i).value)
      && (p in s.extend <==> Begun(hooks, st, unit, i).Some? && IsEmptyHeaderRow(Begun(hooks, st, unit, i).value))
      && (p in s.ended <==> s.active != map[]
                            && (p in st.ended || (p in st.active && Goes(hooks, st, unit, p))))
  {
    var d, p := BeforeStarts(hooks, st, unit), hooks[i].priority;
    BeforeStartsAt(hooks, st, unit, p);
    BeforeStartsTable(hooks, st, unit);
    StartHeadersAt(hooks, d, unit, i);
    StartHeadersKeeps(hooks, d, unit);
  }

  lemma {:induction false} BegunAt(hooks: seq<Hook>, st: State, unit: string, i: nat)
    requires DistinctPriorities(hooks) && i < |hooks| && st.extend == {}
    ensures var (begun, p) := (StartHeaders(hooks, st, unit).1, hooks[i].priority);
      && (p in begun <==> Begun(hooks, st, unit, i).Some?)
      && (p in begun ==> begun[p] == Begun(hooks, st, unit, i).value)
  {
    var n := |hooks| - 1;
    var front := hooks[..n];
    StartHeadersKeeps(front, st, unit);
    if i < n {
      BegunAt(front, st, unit, i);
      assert front[i] == hooks[i] && hooks[i].priority != hooks[n].priority;
    } else {
      NotAmong(hooks, n);
    }
  }

  /** What is returned are the headers begun with the unit. */
  lemma StartedAreBegun(hooks: seq<Hook>, st: State, unit: string, i: nat)
    requires Invariant(hooks, st) && DistinctPriorities(hooks) && i < |hooks|
    ensures var (begun, p) := (Started(hooks, st, unit), hooks[i].priority);
      && (p in begun <==> Begun(hooks, st, unit, i).Some?)
      && (p in begun ==> begun[p] == Begun(hooks, st, unit, i).value)
  {
    BeforeStartsAt(hooks, st, unit, hooks[i].priority);
    BeforeStartsTable(hooks, st, unit);
    BegunAt(hooks, BeforeStarts(hooks, st, unit), unit, i);
  }

  lemma StepReports(hooks: seq<Hook>, st: State, unit: string)
    requires Invariant(hooks, st)
    ensures var s := Step(hooks, st, unit);
      (s.tableBreak <==> Breaks(hooks, st, unit)) && (s.endedNow <==> EndSeen(hooks, st, unit))
  {
    BeforeStartsTable(hooks, st, unit);
    StartHeadersKeeps(hooks, BeforeStarts(hooks, st, unit), unit);
  }

  // ----- whole texts -----

  /** Where no header is in force every header may begin again. */
  lemma NoneInForceNoneEnded(hooks: seq<Hook>, units: seq<string>)
    ensures Run(hooks, FRESH, units).active == map[] ==> Run(hooks, FRESH, units).ended == {}
  {
  }

  /** In every text: behind a unit that leaves no header in force, one begins whenever its pattern matches. */
  lemma NextHeaderBegins(hooks: seq<Hook>, units: seq<string>, unit: string, i: nat)
    requires DistinctPriorities(hooks) && i < |hooks|
    requires Run(hooks, FRESH, units).active == map[] && hooks[i].starts(unit).Some?
    ensures var active := Run(hooks, FRESH, units + [unit]).active;
      hooks[i].priority in active && active[hooks[i].priority] == hooks[i].starts(unit).value
  {
    assert (units + [unit])[..|units|] == units;
    RunKeeps(hooks, units);
    NoneInForceNoneEnded(hooks, units);
    StepIsExact(hooks, Run(hooks, FRESH, units), unit, i);
  }

  function TextsOf(active: map<Priority, string>, ps: seq<Priority>): seq<string>
    requires forall p :: p in ps ==> p in active
  {
    seq(|ps|, i requires 0 <= i < |ps| => active[ps[i]])
  }

  ghost predicate Descending(ps: seq<Priority>) {
    forall i, j :: 0 <= i < j < |ps| ==> ps[i].rank > ps[j].rank
  }

  /** The headers in force are joined line by line, the highest priority first. */
  lemma {:induction false} HeadersAreJoined(active: map<Priority, string>) returns (ps: seq<Priority>)
    ensures (forall p :: p in ps <==> p in active) && Descending(ps)
    ensures Headers(active) == Join(TextsOf(active, ps), "\n")
    decreases |active|
  {
    if active == map[] {
      ps := [];
    } else {
      var top := Top(active.Keys);
      var rest := active - {top};
      assert |rest.Keys| == |active.Keys - {top}| < |active|;
      var below := HeadersAreJoined(rest);
      ps := [top] + below;
      Lead(active, top, rest, below);
    }
  }

  lemma Lead(active: map<Priority, string>, top: Priority, rest: map<Priority, string>, below: seq<Priority>)
    requires IsTop(top, active.Keys) && rest == active - {top}
    requires (forall p :: p in below <==> p in rest) && Descending(below)
    ensures (forall p :: p in [top] + below <==> p in active) && Descending([top] + below)
    ensures Join(TextsOf(active, [top] + below), "\n")
         == if below == [] then active[top] else active[top] + "\n" + Join(TextsOf(rest, below), "\n")
    ensures below == [] <==> rest == map[]
  {
    forall j | 0 <= j < |below| ensures top.rank > below[j].rank {
      assert below[j] in rest;
    }
    assert TextsOf(active, [top] + below)[1..] == TextsOf(rest, below);
    if below == [] {
      assert forall p :: p !in rest;
    } else {
      assert below[0] in rest;
    }
  }
}
