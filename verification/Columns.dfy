/**
 * docreader/parser/pdf_parser.py: the gutter search and the recursive split of
 * glyphs into reading-order columns. Coordinates are real numbers.
 */
module Columns {
  import opened Options
  import Sorting

  datatype Box = Box(x0: real, x1: real, id: int)

  /**
   * A glyph box, its edges in order as the reader leaves them; `id` stands for
   * the other fields.
   */
  type Glyph = b: Box | b.x0 <= b.x1 witness Box(0.0, 0.0, 0)

  predicate StartsBefore(a: Glyph, b: Glyph) {
    a.x0 <= b.x0
  }

  // ----- the sweep -----

  function MaxEnd(gs: seq<Glyph>, n: nat): real
    requires 0 < n <= |gs|
  {
    if n == 1 then gs[0].x1
    else
      var m := MaxEnd(gs, n - 1);
      if gs[n - 1].x1 > m then gs[n - 1].x1 else m
  }

  /** The widest gap met in front of the first n items in start order, and its end. */
  datatype Gap = Gap(width: real, from: real)

  function Widest(gs: seq<Glyph>, n: nat, minGap: real): (r: Option<Gap>)
    requires 0 < n <= |gs|
    ensures r.Some? ==> r.value.width > 0.0
  {
    if n == 1 then None
    else
      var best := Widest(gs, n - 1, minGap);
      var end := MaxEnd(gs, n - 1);
      var gap := gs[n - 1].x0 - end;
      if gap >= minGap && gap > (if best.Some? then best.value.width else 0.0) then Some(Gap(gap, end)) else best
  }

  function Middle(g: Option<Gap>): Option<real> {
    if g.Some? then Some(g.value.from + g.value.width / 2.0) else None
  }

  /** The cut `_find_split` returns; it is never asked about no items. */
  function FindCut(items: seq<Glyph>, minGap: real): Option<real> {
    if items == [] then None else
    var sorted := Sorting.Sort(StartsBefore, items);
    Sorting.SameElements(sorted, items);
    Middle(Widest(sorted, |sorted|, minGap))
  }

  method FindSplit(items: seq<Glyph>, minGap: real) returns (bestCut: Option<real>)
    requires items != []
    ensures bestCut == FindCut(items, minGap)
  {
    var intervals := Sorting.Sort(StartsBefore, items);
    Sorting.SameElements(intervals, items);
    var curEnd := intervals[0].x1;
    var bestGap := 0.0;
    bestCut := None;
    for i := 1 to |intervals|
      invariant curEnd == MaxEnd(intervals, i)
      invariant bestCut == Middle(Widest(intervals, i, minGap))
      invariant bestGap == if Widest(intervals, i, minGap).Some? then Widest(intervals, i, minGap).value.width else 0.0
    {
      var a, b := intervals[i].x0, intervals[i].x1;
      var gap := a - curEnd;
      if gap >= minGap && gap > bestGap {
        bestGap, bestCut := gap, Some(curEnd + gap / 2.0);
      }
      if b > curEnd {
        curEnd := b;
      }
    }
  }

  // ----- what a gutter is -----

  /** No item reaches into the strip from lo to hi, and there are items on both sides. */
  ghost predicate Strip(gs: seq<Glyph>, lo: real, hi: real) {
    && lo < hi
    && (forall i :: 0 <= i < |gs| ==> gs[i].x1 <= lo || hi <= gs[i].x0)
    && (exists i :: 0 <= i < |gs| && gs[i].x1 <= lo)
    && (exists i :: 0 <= i < |gs| && hi <= gs[i].x0)
  }

  ghost predicate Gutter(gs: seq<Glyph>, lo: real, hi: real, minGap: real) {
    Strip(gs, lo, hi) && hi - lo >= minGap
  }

  lemma {:induction false} MaxEndIsMax(gs: seq<Glyph>, n: nat)
    requires 0 < n <= |gs|
    ensures forall i :: 0 <= i < n ==> gs[i].x1 <= MaxEnd(gs, n)
    ensures exists i :: 0 <= i < n && gs[i].x1 == MaxEnd(gs, n)
  {
    if n == 1 {
      assert gs[0].x1 == MaxEnd(gs, n);
    } else {
      MaxEndIsMax(gs, n - 1);
      if gs[n - 1].x1 <= MaxEnd(gs, n - 1) {
        var i :| 0 <= i < n - 1 && gs[i].x1 == MaxEnd(gs, n - 1);
        assert gs[i].x1 == MaxEnd(gs, n);
      } else {
        assert gs[n - 1].x1 == MaxEnd(gs, n);
      }
    }
  }

  /** A gap the sweep meets is a strip of the whole page. */
  lemma GapIsStrip(gs: seq<Glyph>, n: nat)
    requires Sorting.Sorted(StartsBefore, gs) && 0 < n < |gs| && MaxEnd(gs, n) < gs[n].x0
    ensures Strip(gs, MaxEnd(gs, n), gs[n].x0)
  {
    MaxEndIsMax(gs, n);
    forall i | 0 <= i < |gs| ensures gs[i].x1 <= MaxEnd(gs, n) || gs[n].x0 <= gs[i].x0 {
      if i > n {
        assert StartsBefore(gs[n], gs[i]);
      }
    }
  }

  /** Every strip lies in a gap the sweep meets. */
  lemma StripIsInGap(gs: seq<Glyph>, lo: real, hi: real) returns (n: nat)
    requires Sorting.Sorted(StartsBefore, gs) && Strip(gs, lo, hi)
    ensures 0 < n < |gs| && MaxEnd(gs, n) <= lo && hi <= gs[n].x0
  {
    n :| 0 <= n < |gs| && hi <= gs[n].x0;
    while n > 0 && hi <= gs[n - 1].x0
      invariant 0 <= n < |gs| && hi <= gs[n].x0
    {
      n := n - 1;
    }
    var left :| 0 <= left < |gs| && gs[left].x1 <= lo;
    forall i | n <= i < |gs| ensures lo < gs[i].x1 {
      assert n < i ==> StartsBefore(gs[n], gs[i]);
    }
    assert left < n;
    forall i | 0 <= i < n ensures gs[i].x1 <= lo {
      assert i < n - 1 ==> StartsBefore(gs[i], gs[n - 1]);
    }
    MaxEndIsMax(gs, n);
    var top :| 0 <= top < n && gs[top].x1 == MaxEnd(gs, n);
  }

  /** The sweep has seen every gap behind the first n items and kept a widest one. */
  lemma {:induction false} WidestIsBest(gs: seq<Glyph>, n: nat, minGap: real, k: nat)
    requires 0 < n <= |gs| && 0 < k < n
    requires gs[k].x0 - MaxEnd(gs, k) >= minGap && gs[k].x0 - MaxEnd(gs, k) > 0.0
    ensures Widest(gs, n, minGap).Some? && gs[k].x0 - MaxEnd(gs, k) <= Widest(gs, n, minGap).value.width
  {
    if k < n - 1 {
      WidestIsBest(gs, n - 1, minGap, k);
    }
  }

  lemma {:induction false} WidestIsGap(gs: seq<Glyph>, n: nat, minGap: real) returns (k: nat)
    requires 0 < n <= |gs| && Widest(gs, n, minGap).Some?
    ensures 0 < k < n && Widest(gs, n, minGap).value == Gap(gs[k].x0 - MaxEnd(gs, k), MaxEnd(gs, k))
    ensures gs[k].x0 - MaxEnd(gs, k) >= minGap && gs[k].x0 - MaxEnd(gs, k) > 0.0
  {
    if Widest(gs, n, minGap) == Widest(gs, n - 1, minGap) {
      k := WidestIsGap(gs, n - 1, minGap);
    } else {
      k := n - 1;
    }
  }

  lemma StripOfSorted(a: seq<Glyph>, b: seq<Glyph>, lo: real, hi: real)
    requires forall x :: x in a <==> x in b
    requires Strip(a, lo, hi)
    ensures Strip(b, lo, hi)
  {
    forall i | 0 <= i < |b| ensures b[i].x1 <= lo || hi <= b[i].x0 {
      assert b[i] in a;
    }
    var i :| 0 <= i < |a| && a[i].x1 <= lo;
    assert a[i] in b;
    var j :| 0 <= j < |a| && hi <= a[j].x0;
    assert a[j] in b;
  }

  /** The gutter found: widest of all, the cut in its middle. */
  ghost predicate WidestGutter(gs: seq<Glyph>, minGap: real, lo: real, hi: real, cut: real) {
    && Gutter(gs, lo, hi, minGap) && cut == (lo + hi) / 2.0
    && forall l, h :: Gutter(gs, l, h, minGap) ==> h - l <= hi - lo
  }

  /**
   * The search is exact: it finds nothing when there is no gutter, and else the
   * middle of a widest one.
   */
  lemma CutIsExact(items: seq<Glyph>, minGap: real)
    requires items != []
    ensures FindCut(items, minGap).None? ==> !exists lo, hi :: Gutter(items, lo, hi, minGap)
    ensures FindCut(items, minGap).Some? ==>
              exists lo, hi :: WidestGutter(items, minGap, lo, hi, FindCut(items, minGap).value)
  {
    var gs := Sorting.Sort(StartsBefore, items);
    Sorting.SortSorts(StartsBefore, items);
    var best := Widest(gs, |gs|, minGap);
    forall lo, hi | Gutter(items, lo, hi, minGap)
      ensures best.Some? && hi - lo <= best.value.width
    {
      StripOfSorted(items, gs, lo, hi);
      var n := StripIsInGap(gs, lo, hi);
      WidestIsBest(gs, |gs|, minGap, n);
    }
    if best.Some? {
      var k := WidestIsGap(gs, |gs|, minGap);
      GapIsStrip(gs, k);
      StripOfSorted(gs, items, MaxEnd(gs, k), gs[k].x0);
      assert WidestGutter(items, minGap, MaxEnd(gs, k), gs[k].x0, FindCut(items, minGap).value);
    }
  }

  // ----- the recursive split -----

  const DEPTH_LIMIT := 10

  /** max(scale * 2.5, width * 0.04) */
  function MinGap(scale: real, width: real): real {
    if width * 0.04 > scale * 2.5 then width * 0.04 else scale * 2.5
  }

  predicate IsLeft(g: Glyph, cut: real) {
    (g.x0 + g.x1) / 2.0 < cut
  }

  function Side(gs: seq<Glyph>, cut: real, left: bool): seq<Glyph> {
    if gs == [] then []
    else Side(gs[..|gs| - 1], cut, left) + if IsLeft(gs[|gs| - 1], cut) == left then [gs[|gs| - 1]] else []
  }

  datatype Parts = Parts(left: seq<Glyph>, right: seq<Glyph>)

  /** The two parts of a page with a gutter; none with an empty side. */
  function PartsOf(chars: seq<Glyph>, minGap: real): Option<Parts> {
    if |chars| <= 1 then None
    else
      var cut := FindCut(chars, minGap);
      if cut.None? then None
      else
        var left, right := Side(chars, cut.value, true), Side(chars, cut.value, false);
        if left == [] || right == [] then None else Some(Parts(left, right))
  }

  type Cutter = seq<Glyph> -> Option<Parts>

  function CutterFor(minGap: real): Cutter {
    chars => PartsOf(chars, minGap)
  }

  function Split(cut: Cutter, chars: seq<Glyph>, depth: nat): seq<seq<Glyph>>
    decreases if depth > DEPTH_LIMIT then 0 else DEPTH_LIMIT + 1 - depth
  {
    if depth > DEPTH_LIMIT || cut(chars).None? then [chars]
    else Split(cut, cut(chars).value.left, depth + 1) + Split(cut, cut(chars).value.right, depth + 1)
  }

  function SplitColumns(chars: seq<Glyph>, scale: real, width: real): seq<seq<Glyph>> {
    Split(CutterFor(MinGap(scale, width)), chars, 0)
  }

  lemma {:induction false} SidesPartition(gs: seq<Glyph>, cut: real)
    ensures multiset(Side(gs, cut, true)) + multiset(Side(gs, cut, false)) == multiset(gs)
    ensures forall g :: g in Side(gs, cut, true) <==> g in gs && IsLeft(g, cut)
    ensures forall g :: g in Side(gs, cut, false) <==> g in gs && !IsLeft(g, cut)
  {
    if gs != [] {
      var n := |gs| - 1;
      SidesPartition(gs[..n], cut);
      assert gs == gs[..n] + [gs[n]];
    }
  }

  ghost predicate NoGutter(gs: seq<Glyph>, minGap: real) {
    !exists lo, hi :: Gutter(gs, lo, hi, minGap)
  }

  /** Two parts that hold exactly the glyphs, with a gutter between them. */
  ghost predicate CutsGutter(chars: seq<Glyph>, p: Parts, minGap: real) {
    && p.left != [] && p.right != []
    && Inside(p.left, chars) && Inside(p.right, chars)
    && multiset(p.left) + multiset(p.right) == multiset(chars)
    && Apart(p.left, p.right, minGap)
  }

  /**
   * A split cuts a gutter: neither side is empty, so the fallback for an empty
   * side is never taken.
   */
  lemma SplitIsClean(chars: seq<Glyph>, minGap: real, cut: real, lo: real, hi: real)
    requires WidestGutter(chars, minGap, lo, hi, cut)
    ensures CutsGutter(chars, Parts(Side(chars, cut, true), Side(chars, cut, false)), minGap)
    ensures CutsAt(chars, Parts(Side(chars, cut, true), Side(chars, cut, false)), lo, hi, minGap)
  {
    SidesPartition(chars, cut);
    var left, right := Side(chars, cut, true), Side(chars, cut, false);
    var i :| 0 <= i < |chars| && chars[i].x1 <= lo;
    var j :| 0 <= j < |chars| && hi <= chars[j].x0;
    assert chars[i] in left && chars[j] in right;
    forall a | a in left ensures a.x1 <= lo {
      var n :| 0 <= n < |chars| && chars[n] == a;
    }
    forall b | b in right ensures hi <= b.x0 {
      var n :| 0 <= n < |chars| && chars[n] == b;
    }
  }

  /** A page is cut exactly when it has a gutter. */
  ghost predicate Exact(cut: Cutter, minGap: real) {
    forall chars: seq<Glyph> :: ExactOn(cut, chars, minGap)
  }

  ghost predicate ExactOn(cut: Cutter, chars: seq<Glyph>, minGap: real) {
    chars != [] ==> ExactAt(cut(chars), chars, minGap)
  }

  ghost predicate ExactAt(parts: Option<Parts>, chars: seq<Glyph>, minGap: real) {
    if parts.None? then NoGutter(chars, minGap)
    else CutsGutter(chars, parts.value, minGap) && exists lo, hi :: CutsAt(chars, parts.value, lo, hi, minGap)
  }

  /** The gutter from lo to hi lies between the parts. */
  ghost predicate CutsAt(chars: seq<Glyph>, p: Parts, lo: real, hi: real, minGap: real) {
    && Gutter(chars, lo, hi, minGap)
    && (forall g :: g in p.left ==> g.x1 <= lo)
    && (forall g :: g in p.right ==> hi <= g.x0)
  }

  lemma CutterIsExact(minGap: real)
    ensures Exact(CutterFor(minGap), minGap)
  {
    forall chars: seq<Glyph> ensures ExactOn(CutterFor(minGap), chars, minGap) {
      if chars != [] { PartsAreExact(chars, minGap); }
    }
  }

  lemma PartsAreExact(chars: seq<Glyph>, minGap: real)
    requires chars != []
    ensures ExactAt(PartsOf(chars, minGap), chars, minGap)
  {
    CutIsExact(chars, minGap);
    var cut := FindCut(chars, minGap);
    if |chars| == 1 {
      OneGlyphHasNone(chars, minGap);
    } else if cut.Some? {
      var lo, hi :| WidestGutter(chars, minGap, lo, hi, cut.value);
      SplitIsClean(chars, minGap, cut.value, lo, hi);
    }
  }

  lemma OneGlyphHasNone(chars: seq<Glyph>, minGap: real)
    requires |chars| == 1
    ensures NoGutter(chars, minGap)
  {
  }

  /** All glyphs of all columns. */
  function Bag(cols: seq<seq<Glyph>>): multiset<Glyph> {
    if cols == [] then multiset{} else Bag(cols[..|cols| - 1]) + multiset(cols[|cols| - 1])
  }

  lemma {:induction false} BagAppend(a: seq<seq<Glyph>>, b: seq<seq<Glyph>>)
    ensures Bag(a + b) == Bag(a) + Bag(b)
  {
    if b == [] {
      assert a + b == a;
    } else {
      assert (a + b)[..|a + b| - 1] == a + b[..|b| - 1];
      BagAppend(a, b[..|b| - 1]);
    }
  }

  lemma BagOfOne(cols: seq<seq<Glyph>>, col: seq<Glyph>)
    requires cols == [col]
    ensures Bag(cols) == multiset(col)
  {
    assert cols[..0] == [];
  }

  type Count = seq<seq<Glyph>> -> multiset<Glyph>

  /** What of Bag the recursion needs. */
  ghost predicate Adds(count: Count) {
    && (forall a, b :: AddsUp(count, a, b))
    && (forall col :: CountsOne(count, col))
  }

  ghost predicate AddsUp(count: Count, a: seq<seq<Glyph>>, b: seq<seq<Glyph>>) {
    count(a + b) == count(a) + count(b)
  }

  ghost predicate CountsOne(count: Count, col: seq<Glyph>) {
    count([col]) == multiset(col)
  }

  /** Every glyph of a ends at least minGap before any glyph of b begins. */
  ghost predicate Apart(a: seq<Glyph>, b: seq<Glyph>, minGap: real) {
    forall g, h :: g in a && h in b ==> g.x1 + minGap <= h.x0 && g.x1 < h.x0
  }

  ghost predicate Inside(part: seq<Glyph>, chars: seq<Glyph>) {
    forall g :: g in part ==> g in chars
  }

  /**
   * No column is empty, and they run left to right with at least minGap
   * between any two.
   */
  ghost predicate ReadingOrder(cols: seq<seq<Glyph>>, chars: seq<Glyph>, minGap: real) {
    && cols != []
    && (forall i :: 0 <= i < |cols| ==> cols[i] != [] && Inside(cols[i], chars))
    && (forall i, j :: 0 <= i < j < |cols| ==> Apart(cols[i], cols[j], minGap))
  }

  lemma JoinColumns(a: seq<seq<Glyph>>, b: seq<seq<Glyph>>, p: Parts, chars: seq<Glyph>, minGap: real)
    requires CutsGutter(chars, p, minGap)
    requires ReadingOrder(a, p.left, minGap) && ReadingOrder(b, p.right, minGap)
    ensures ReadingOrder(a + b, chars, minGap)
  {
    var cols := a + b;
    forall i | 0 <= i < |cols| ensures cols[i] != [] && Inside(cols[i], chars) {
      assert if i < |a| then Inside(a[i], p.left) else Inside(b[i - |a|], p.right);
    }
    forall i, j | 0 <= i < j < |cols| ensures Apart(cols[i], cols[j], minGap) {
      if j < |a| {
        assert Apart(a[i], a[j], minGap);
      } else if i >= |a| {
        assert Apart(b[i - |a|], b[j - |a|], minGap);
      } else {
        assert Inside(a[i], p.left) && Inside(b[j - |a|], p.right);
      }
    }
  }

  lemma CutIsClean(cut: Cutter, minGap: real, chars: seq<Glyph>)
    requires Exact(cut, minGap) && chars != [] && cut(chars).Some?
    ensures cut(chars).value.left != [] && cut(chars).value.right != []
    ensures CutsGutter(chars, cut(chars).value, minGap)
  {
    assert ExactOn(cut, chars, minGap);
  }

  /** The columns are in reading order. */
  lemma {:induction false} SplitIsInReadingOrder(cut: Cutter, minGap: real, chars: seq<Glyph>, depth: nat)
    requires Exact(cut, minGap) && chars != []
    ensures ReadingOrder(Split(cut, chars, depth), chars, minGap)
    decreases if depth > DEPTH_LIMIT then 0 else DEPTH_LIMIT + 1 - depth, 1
  {
    if depth <= DEPTH_LIMIT && cut(chars).Some? {
      var p := cut(chars).value;
      CutIsClean(cut, minGap, chars);
      HalfIsInReadingOrder(cut, minGap, p.left, depth);
      HalfIsInReadingOrder(cut, minGap, p.right, depth);
      JoinColumns(Split(cut, p.left, depth + 1), Split(cut, p.right, depth + 1), p, chars, minGap);
    }
  }

  lemma {:induction false} HalfIsInReadingOrder(cut: Cutter, minGap: real, half: seq<Glyph>, depth: nat)
    requires Exact(cut, minGap) && half != [] && depth <= DEPTH_LIMIT
    ensures ReadingOrder(Split(cut, half, depth + 1), half, minGap)
    decreases DEPTH_LIMIT + 1 - depth, 0
  {
    SplitIsInReadingOrder(cut, minGap, half, depth + 1);
  }

  lemma PartsAddUp(cut: Cutter, minGap: real, chars: seq<Glyph>)
    requires Exact(cut, minGap) && chars != [] && cut(chars).Some?
    ensures cut(chars).value.left != [] && cut(chars).value.right != []
    ensures multiset(cut(chars).value.left) + multiset(cut(chars).value.right) == multiset(chars)
  {
    CutIsClean(cut, minGap, chars);
  }

  lemma CountOfParts(cut: Cutter, minGap: real, chars: seq<Glyph>, count: Count,
                     l: seq<seq<Glyph>>, r: seq<seq<Glyph>>)
    requires Exact(cut, minGap) && chars != [] && cut(chars).Some? && Adds(count)
    requires count(l) == multiset(cut(chars).value.left) && count(r) == multiset(cut(chars).value.right)
    ensures count(l + r) == multiset(chars)
  {
    PartsAddUp(cut, minGap, chars);
    assert AddsUp(count, l, r);
  }

  lemma PartsAreNotEmpty(cut: Cutter, minGap: real, chars: seq<Glyph>)
    requires Exact(cut, minGap) && chars != [] && cut(chars).Some?
    ensures cut(chars).value.left != [] && cut(chars).value.right != []
  {
    PartsAddUp(cut, minGap, chars);
  }

  ghost predicate Counted(cut: Cutter, chars: seq<Glyph>, depth: nat, count: Count) {
    count(Split(cut, chars, depth)) == multiset(chars)
  }

  lemma {:induction false} SplitPartitions(cut: Cutter, minGap: real, chars: seq<Glyph>, depth: nat, count: Count)
    requires Exact(cut, minGap) && chars != [] && Adds(count)
    ensures Counted(cut, chars, depth, count)
    decreases if depth > DEPTH_LIMIT then 0 else DEPTH_LIMIT + 1 - depth, 1
  {
    if depth > DEPTH_LIMIT || cut(chars).None? {
      assert CountsOne(count, chars);
    } else {
      var p := cut(chars).value;
      PartsAreNotEmpty(cut, minGap, chars);
      HalfPartitions(cut, minGap, p.left, depth, count);
      HalfPartitions(cut, minGap, p.right, depth, count);
      CountOfParts(cut, minGap, chars, count, Split(cut, p.left, depth + 1), Split(cut, p.right, depth + 1));
    }
  }

  lemma {:induction false} HalfPartitions(cut: Cutter, minGap: real, half: seq<Glyph>, depth: nat, count: Count)
    requires Exact(cut, minGap) && half != [] && Adds(count) && depth <= DEPTH_LIMIT
    ensures Counted(cut, half, depth + 1, count)
    decreases DEPTH_LIMIT + 1 - depth, 0
  {
    SplitPartitions(cut, minGap, half, depth + 1, count);
  }

  /** The columns hold exactly the glyphs. */
  lemma ColumnsHoldAll(cut: Cutter, minGap: real, chars: seq<Glyph>)
    requires Exact(cut, minGap) && chars != []
    ensures Bag(Split(cut, chars, 0)) == multiset(chars)
  {
    var count: Count := (cols: seq<seq<Glyph>>) => Bag(cols);
    forall a, b ensures AddsUp(count, a, b) {
      BagAppend(a, b);
    }
    forall col: seq<Glyph> ensures CountsOne(count, col) {
      BagOfOne([col], col);
    }
    SplitPartitions(cut, minGap, chars, 0, count);
  }

  ghost predicate NoGutters(cols: seq<seq<Glyph>>, minGap: real) {
    forall i :: 0 <= i < |cols| ==> NoGutter(cols[i], minGap)
  }
}
