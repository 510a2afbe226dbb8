/**
 * docreader/splitter/splitter.py, third stage: the positions at which a text is cut once the protected
 * spans are isolated.
 */
module IsolatedCuts {
  import opened Pieces
  import opened ProtectedSpans
  import opened Text

  /** A piece begins or ends at p. */
  ghost predicate IsCut(ps: seq<string>, p: nat) {
    exists k :: 0 <= k <= |ps| && Pos(ps, k) == p
  }

  /** A kept span begins or ends at p. */
  ghost predicate AtEdge(gs: seq<Guard>, p: nat) {
    exists i :: 0 <= i < |gs| && (p == gs[i].start || p == gs[i].End())
  }

  /** A kept span goes on across p. */
  ghost predicate Inside(gs: seq<Guard>, p: nat) {
    exists i :: 0 <= i < |gs| && gs[i].start < p < gs[i].End()
  }

  /** A split, of those that begin at `start`, ends at p. */
  ghost predicate SplitEnds(splits: seq<string>, start: nat, p: nat) {
    exists k :: 0 < k <= |splits| && start + Pos(splits, k) == p
  }

  ghost predicate Wanted(splits: seq<string>, start: nat, gs: seq<Guard>, p: nat) {
    AtEdge(gs, p) || (SplitEnds(splits, start, p) && !Inside(gs, p))
  }

  // ----- cuts of lists of pieces -----

  lemma {:induction false} PosOfPrefix(a: seq<string>, b: seq<string>, k: nat)
    requires k <= |a|
    ensures Pos(a + b, k) == Pos(a, k)
  {
    if k > 0 { PosOfPrefix(a, b, k - 1); }
  }

  lemma {:induction false} PosBehind(a: seq<string>, b: seq<string>, k: nat)
    requires k <= |b|
    ensures Pos(a + b, |a| + k) == Pos(a, |a|) + Pos(b, k)
  {
    if k == 0 {
      PosOfPrefix(a, b, |a|);
    } else {
      PosBehind(a, b, k - 1);
    }
  }

  lemma CutStays(a: seq<string>, b: seq<string>, p: nat)
    requires IsCut(a, p) || (p >= Pos(a, |a|) && IsCut(b, p - Pos(a, |a|)))
    ensures IsCut(a + b, p)
  {
    if IsCut(a, p) {
      var k :| 0 <= k <= |a| && Pos(a, k) == p;
      PosOfPrefix(a, b, k);
    } else {
      var k :| 0 <= k <= |b| && Pos(b, k) == p - Pos(a, |a|);
      PosBehind(a, b, k);
    }
  }

  lemma CutComesFrom(a: seq<string>, b: seq<string>, k: nat, p: nat)
    requires k <= |a| + |b| && Pos(a + b, k) == p
    ensures IsCut(a, p) || (p >= Pos(a, |a|) && IsCut(b, p - Pos(a, |a|)))
  {
    if k <= |a| {
      PosOfPrefix(a, b, k);
    } else {
      PosBehind(a, b, k - |a|);
      assert IsCut(b, Pos(b, k - |a|));
    }
  }

  lemma CutsAppend(a: seq<string>, b: seq<string>, p: nat)
    ensures IsCut(a + b, p) <==> IsCut(a, p) || (p >= Pos(a, |a|) && IsCut(b, p - Pos(a, |a|)))
  {
    if IsCut(a, p) || (p >= Pos(a, |a|) && IsCut(b, p - Pos(a, |a|))) {
      CutStays(a, b, p);
    }
    if IsCut(a + b, p) {
      var k: nat :| 0 <= k <= |a + b| && Pos(a + b, k) == p;
      CutComesFrom(a, b, k, p);
    }
  }

  lemma CutsOfBetween(text: string, a: nat, b: nat, p: nat)
    requires a <= b <= |text|
    ensures Pos(Between(text, a, b), |Between(text, a, b)|) == b - a
    ensures IsCut(Between(text, a, b), p) <==> p == 0 || p == b - a
  {
    var ps := Between(text, a, b);
    assert Pos(ps, 0) == 0 && (a < b ==> Pos(ps, 1) == b - a);
  }

  lemma CutsOfOne(s: string, p: nat)
    ensures Pos([s], 1) == |s| && (IsCut([s], p) <==> p == 0 || p == |s|)
  {
    assert Pos([s], 0) == 0 && Pos([s], 1) == |s|;
  }

  /** One step of the join: the pieces so far end at `point`, and the next at b, perhaps with one of its own. */
  lemma CutsGrow(text: string, res: seq<string>, point: nat, b: nat, p: nat)
    requires Pos(res, |res|) == point <= b <= |text|
    ensures var more := res + Between(text, point, b);
      Pos(more, |more|) == b && (IsCut(more, p) <==> IsCut(res, p) || p == b)
  {
    var next := Between(text, point, b);
    CutsAppend(res, next, p);
    CutsOfBetween(text, point, b, if p >= point then p - point else 0);
    PosBehind(res, next, |next|);
    assert Pos(res, |res|) == point;
  }

  lemma CutsGrowByGuard(text: string, res: seq<string>, point: nat, g: Guard, p: nat)
    requires Pos(res, |res|) == point <= g.start <= g.End() <= |text|
    ensures var more := res + Between(text, point, g.start) + [g.content];
      Pos(more, |more|) == g.End() && (IsCut(more, p) <==> IsCut(res, p) || p == g.start || p == g.End())
  {
    var lead := res + Between(text, point, g.start);
    CutsGrow(text, res, point, g.start, p);
    CutsAppend(lead, [g.content], p);
    CutsOfOne(g.content, if p >= g.start then p - g.start else 0);
    PosBehind(lead, [g.content], 1);
  }

  // ----- what is wanted -----

  lemma EdgeOfMore(gs: seq<Guard>, p: nat)
    requires gs != []
    ensures AtEdge(gs, p) <==> p == gs[0].start || p == gs[0].End() || AtEdge(gs[1..], p)
    ensures Inside(gs, p) <==> gs[0].start < p < gs[0].End() || Inside(gs[1..], p)
  {
    if AtEdge(gs[1..], p) {
      var i :| 0 <= i < |gs[1..]| && (p == gs[1..][i].start || p == gs[1..][i].End());
      assert gs[i + 1] == gs[1..][i];
    }
    if Inside(gs[1..], p) {
      var i :| 0 <= i < |gs[1..]| && gs[1..][i].start < p < gs[1..][i].End();
      assert gs[i + 1] == gs[1..][i];
    }
    forall i | 0 < i < |gs| ensures gs[i] == gs[1..][i - 1] {
    }
  }

  lemma NoneBefore(gs: seq<Guard>, text: string, from: nat, size: int, p: nat)
    requires GuardsOf(gs, text, from, size) && p <= from
    ensures !Inside(gs, p) && (p < from ==> !AtEdge(gs, p))
  {
    GuardsAreDisjoint(gs, text, from, size);
  }

  lemma SplitEndsNext(splits: seq<string>, start: nat, p: nat)
    requires splits != []
    ensures var end := start + |splits[0]|;
      SplitEnds(splits, start, p) <==> p == end || SplitEnds(splits[1..], end, p)
  {
    var end, rest := start + |splits[0]|, splits[1..];
    assert [splits[0]] + rest == splits;
    assert Pos([splits[0]], 1) == |splits[0]| && Pos(splits, 1) == |splits[0]|;
    if SplitEnds(rest, end, p) {
      var k :| 0 < k <= |rest| && end + Pos(rest, k) == p;
      PosBehind([splits[0]], rest, k);
    }
    if SplitEnds(splits, start, p) {
      var k :| 0 < k <= |splits| && start + Pos(splits, k) == p;
      if k > 1 { PosBehind([splits[0]], rest, k - 1); }
    }
  }

  lemma SplitEndsBehind(splits: seq<string>, start: nat, p: nat)
    requires SplitEnds(splits, start, p)
    ensures splits != [] && start + |splits[0]| <= p
  {
    var k :| 0 < k <= |splits| && start + Pos(splits, k) == p;
    PosMonotone(splits, 1, k);
    assert Pos(splits, 1) == |splits[0]|;
  }

  // ----- the cuts of the join -----

  /** What a kept span adds. */
  lemma GuardWanted(text: string, splits: seq<string>, start: nat, gs: seq<Guard>, point: nat, size: int, p: nat)
    requires Laid(text, splits, start, gs, point, size) && splits != [] && gs != []
    requires gs[0].start < start + |splits[0]| && p > point
    ensures Wanted(splits, start, gs, p)
       <==> p == gs[0].start || p == gs[0].End() || (p > gs[0].End() && Wanted(splits, start, gs[1..], p))
  {
    var g := gs[0];
    EdgeOfMore(gs, p);
    if p < g.End() { NoneBefore(gs[1..], text, g.End(), size, p); }
    if p < g.start && SplitEnds(splits, start, p) { SplitEndsBehind(splits, start, p); }
  }

  /** What a split adds behind which no kept span begins. */
  lemma SplitWanted(text: string, splits: seq<string>, start: nat, gs: seq<Guard>, point: nat, size: int, p: nat)
    requires Laid(text, splits, start, gs, point, size) && splits != []
    requires gs == [] || start + |splits[0]| <= gs[0].start
    requires p > point
    ensures var end := start + |splits[0]|;
      Wanted(splits, start, gs, p) <==> p == end || (p > Max(point, end) && Wanted(splits[1..], end, gs, p))
  {
    var end := start + |splits[0]|;
    LaidNext(text, splits, start, gs, point, size);
    SplitEndsNext(splits, start, p);
    if p <= end { NoneBefore(gs, text, Max(point, end), size, p); }
    if p < end && SplitEnds(splits[1..], end, p) {
      BehindStart(splits[1..], end, p);
    }
  }

  lemma BehindStart(splits: seq<string>, start: nat, p: nat)
    requires SplitEnds(splits, start, p)
    ensures start <= p
  {
    SplitEndsBehind(splits, start, p);
  }

  lemma {:induction false} IsolateCuts(text: string, splits: seq<string>, start: nat, gs: seq<Guard>, point: nat,
                                       res: seq<string>, size: int, p: nat)
    requires Laid(text, splits, start, gs, point, size) && Pos(res, |res|) == point
    ensures IsCut(Isolate(text, splits, start, gs, point, res), p)
       <==> IsCut(res, p) || (p > point && Wanted(splits, start, gs, p))
    decreases |splits| + |gs|
  {
    if splits == [] {
      GuardsAreDisjoint(gs, text, point, size);
    } else {
      var end := start + |splits[0]|;
      LaidNext(text, splits, start, gs, point, size);
      assert IsCut(res, point);
      if gs != [] && gs[0].start < end {
        CutsGrowByGuard(text, res, point, gs[0], p);
        IsolateCuts(text, splits, start, gs[1..], gs[0].End(),
                    res + Between(text, point, gs[0].start) + [gs[0].content], size, p);
        if p > point { GuardWanted(text, splits, start, gs, point, size, p); }
      } else {
        if point <= end {
          CutsGrow(text, res, point, end, p);
        } else {
          assert res + [] == res;
        }
        IsolateCuts(text, splits[1..], end, gs, Max(point, end), res + Between(text, point, end), size, p);
        if p > point { SplitWanted(text, splits, start, gs, point, size, p); }
      }
    }
  }

  /**
   * The text is cut at the ends of its splits that lie in no kept span, and at both edges of every kept
   * span, and nowhere else.
   */
  lemma JoinCutsExactly(text: string, splits: seq<string>, gs: seq<Guard>, size: int, p: nat)
    requires Laid(text, splits, 0, gs, 0, size) && p > 0
    ensures IsCut(Isolate(text, splits, 0, gs, 0, []), p) <==> Wanted(splits, 0, gs, p)
  {
    IsolateCuts(text, splits, 0, gs, 0, [], size, p);
  }
}
