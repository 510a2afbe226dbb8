/**
 * docreader/parser/pdf_parser.py: when the depth limit of the column split leaves a
 * gutter inside a column.
 */
module ColumnLimit {
  import opened Columns
  import opened Options
  import Sorting

  // ----- when a gutter is left -----

  /** Somewhere the recursion arrives at a part that could be cut, but at its limit. */
  predicate HitsLimit(cut: Cutter, chars: seq<Glyph>, depth: nat)
    decreases if depth > DEPTH_LIMIT then 0 else DEPTH_LIMIT + 1 - depth
  {
    cut(chars).Some? &&
    (depth > DEPTH_LIMIT
     || HitsLimit(cut, cut(chars).value.left, depth + 1)
     || HitsLimit(cut, cut(chars).value.right, depth + 1))
  }

  lemma NoGuttersTogether(a: seq<seq<Glyph>>, b: seq<seq<Glyph>>, minGap: real)
    ensures NoGutters(a + b, minGap) <==> NoGutters(a, minGap) && NoGutters(b, minGap)
  {
    var c := a + b;
    if NoGutters(c, minGap) {
      forall i | 0 <= i < |a| ensures NoGutter(a[i], minGap) {
        assert NoGutter(c[i], minGap);
      }
      forall i | 0 <= i < |b| ensures NoGutter(b[i], minGap) {
        assert NoGutter(c[|a| + i], minGap);
      }
    }
  }

  lemma UncutHasNone(cut: Cutter, minGap: real, chars: seq<Glyph>)
    requires Exact(cut, minGap) && chars != []
    ensures NoGutters([chars], minGap) <==> cut(chars).None?
  {
    assert ExactOn(cut, chars, minGap);
    assert NoGutters([chars], minGap) <==> NoGutter(chars, minGap) by {
      assert [chars][0] == chars;
    }
    if cut(chars).Some? {
      var lo, hi :| CutsAt(chars, cut(chars).value, lo, hi, minGap);
    }
  }

  /** No column keeps a gutter, unless the recursion hit its limit somewhere. */
  lemma {:induction false} GutterLeftIffLimitHit(cut: Cutter, minGap: real, chars: seq<Glyph>, depth: nat)
    requires Exact(cut, minGap) && chars != []
    ensures NoGutters(Split(cut, chars, depth), minGap) <==> !HitsLimit(cut, chars, depth)
    decreases if depth > DEPTH_LIMIT then 0 else DEPTH_LIMIT + 1 - depth
  {
    if depth > DEPTH_LIMIT || cut(chars).None? {
      UncutHasNone(cut, minGap, chars);
    } else {
      var p := cut(chars).value;
      PartsAreNotEmpty(cut, minGap, chars);
      GutterLeftIffLimitHit(cut, minGap, p.left, depth + 1);
      GutterLeftIffLimitHit(cut, minGap, p.right, depth + 1);
      NoGuttersTogether(Split(cut, p.left, depth + 1), Split(cut, p.right, depth + 1), minGap);
    }
  }

  // ----- how many gaps it takes -----

  predicate WideAt(gs: seq<Glyph>, k: nat, minGap: real)
    requires 0 < k < |gs|
  {
    gs[k].x0 - MaxEnd(gs, k) >= minGap && gs[k].x0 - MaxEnd(gs, k) > 0.0
  }

  /** Where the gaps begin that the sweep finds wide enough among the first n items. */
  function WideEnds(gs: seq<Glyph>, n: nat, minGap: real): set<real>
    requires n <= |gs|
  {
    if n <= 1 then {}
    else WideEnds(gs, n - 1, minGap) + if WideAt(gs, n - 1, minGap) then {MaxEnd(gs, n - 1)} else {}
  }

  function GapEnds(items: seq<Glyph>, minGap: real): set<real> {
    var sorted := Sorting.Sort(StartsBefore, items);
    WideEnds(sorted, |sorted|, minGap)
  }

  lemma {:induction false} WideEndIsMet(gs: seq<Glyph>, n: nat, minGap: real, k: nat)
    requires 0 < k < n <= |gs| && WideAt(gs, k, minGap)
    ensures MaxEnd(gs, k) in WideEnds(gs, n, minGap)
  {
    if k < n - 1 { WideEndIsMet(gs, n - 1, minGap, k); }
  }

  lemma {:induction false} MetIsWideEnd(gs: seq<Glyph>, n: nat, minGap: real, e: real) returns (k: nat)
    requires n <= |gs| && e in WideEnds(gs, n, minGap)
    ensures 0 < k < n && WideAt(gs, k, minGap) && MaxEnd(gs, k) == e
  {
    if e in WideEnds(gs, n - 1, minGap) {
      k := MetIsWideEnd(gs, n - 1, minGap, e);
    } else {
      k := n - 1;
    }
  }

  /** A gutter begins at e, right where some item ends. */
  ghost predicate BeginsAt(gs: seq<Glyph>, e: real, minGap: real) {
    && (exists g :: g in gs && g.x1 == e)
    && exists hi :: Gutter(gs, e, hi, minGap)
  }

  lemma GapEndIsGutter(items: seq<Glyph>, minGap: real, e: real)
    requires e in GapEnds(items, minGap)
    ensures BeginsAt(items, e, minGap)
  {
    var gs := Sorting.Sort(StartsBefore, items);
    Sorting.SortSorts(StartsBefore, items);
    var k := MetIsWideEnd(gs, |gs|, minGap, e);
    GapIsStrip(gs, k);
    MaxEndIsMax(gs, k);
    StripOfSorted(gs, items, e, gs[k].x0);
    assert Gutter(items, e, gs[k].x0, minGap);
    var i :| 0 <= i < k && gs[i].x1 == e;
    assert gs[i] in items;
  }

  lemma GutterIsGapEnd(items: seq<Glyph>, minGap: real, e: real)
    requires BeginsAt(items, e, minGap)
    ensures e in GapEnds(items, minGap)
  {
    var gs := Sorting.Sort(StartsBefore, items);
    Sorting.SortSorts(StartsBefore, items);
    var hi :| Gutter(items, e, hi, minGap);
    var g :| g in items && g.x1 == e;
    StripOfSorted(items, gs, e, hi);
    var n := StripIsInGap(gs, e, hi);
    GutterIsMet(gs, n, e, hi, minGap, g);
  }

  /** The sweep's gaps are the gutters of the page, each known by where it begins. */
  lemma GapEndsAreGutters(items: seq<Glyph>, minGap: real, e: real)
    ensures e in GapEnds(items, minGap) <==> BeginsAt(items, e, minGap)
  {
    if e in GapEnds(items, minGap) { GapEndIsGutter(items, minGap, e); }
    if BeginsAt(items, e, minGap) { GutterIsGapEnd(items, minGap, e); }
  }

  lemma GutterIsMet(gs: seq<Glyph>, n: nat, e: real, hi: real, minGap: real, g: Glyph)
    requires Sorting.Sorted(StartsBefore, gs) && Gutter(gs, e, hi, minGap)
    requires 0 < n < |gs| && MaxEnd(gs, n) <= e && hi <= gs[n].x0
    requires g in gs && g.x1 == e
    ensures e in WideEnds(gs, |gs|, minGap)
  {
    var i :| 0 <= i < |gs| && gs[i] == g;
    assert i >= n ==> i == n || StartsBefore(gs[n], gs[i]);
    MaxEndIsMax(gs, n);
    assert MaxEnd(gs, n) == e;
    WideEndIsMet(gs, |gs|, minGap, n);
  }

  lemma PartOfStrip(gs: seq<Glyph>, lo: real, hi: real, a: Glyph, b: Glyph)
    requires lo < hi && forall g :: g in gs ==> g.x1 <= lo || hi <= g.x0
    requires a in gs && a.x1 <= lo && b in gs && hi <= b.x0
    ensures Strip(gs, lo, hi)
  {
    var i :| 0 <= i < |gs| && gs[i] == a;
    var j :| 0 <= j < |gs| && gs[j] == b;
  }

  lemma StripHas(gs: seq<Glyph>, lo: real, hi: real) returns (a: Glyph, b: Glyph)
    requires Strip(gs, lo, hi)
    ensures a in gs && a.x1 <= lo && b in gs && hi <= b.x0
    ensures forall g :: g in gs ==> g.x1 <= lo || hi <= g.x0
  {
    var i :| 0 <= i < |gs| && gs[i].x1 <= lo;
    var j :| 0 <= j < |gs| && hi <= gs[j].x0;
    a, b := gs[i], gs[j];
  }

  /** A gutter of a part is a gutter of the whole. */
  lemma PartsGutterIsWholes(chars: seq<Glyph>, p: Parts, lo: real, hi: real, minGap: real, part: seq<Glyph>, e: real)
    requires CutsGutter(chars, p, minGap) && CutsAt(chars, p, lo, hi, minGap)
    requires part == p.left || part == p.right
    requires BeginsAt(part, e, minGap)
    ensures BeginsAt(chars, e, minGap)
  {
    var top :| Gutter(part, e, top, minGap);
    var a, b := StripHas(part, e, top);
    forall g | g in chars ensures g.x1 <= e || top <= g.x0 {
      assert g in p.left || g in p.right by { InOnePart(chars, p, g); }
    }
    var g :| g in part && g.x1 == e;
    assert a in chars && b in chars && g in chars;
    PartOfStrip(chars, e, top, a, b);
    assert Gutter(chars, e, top, minGap);
  }

  lemma InOnePart(chars: seq<Glyph>, p: Parts, g: Glyph)
    requires multiset(p.left) + multiset(p.right) == multiset(chars) && g in chars
    ensures g in p.left || g in p.right
  {
    assert g in multiset(chars);
  }

  /** Where the gutter that is cut begins: at the end of the left part. */
  lemma CutGutterBegins(chars: seq<Glyph>, p: Parts, lo: real, hi: real, minGap: real)
    requires CutsGutter(chars, p, minGap) && CutsAt(chars, p, lo, hi, minGap)
    ensures BeginsAt(chars, MaxEnd(p.left, |p.left|), minGap)
  {
    MaxEndIsMax(p.left, |p.left|);
    var e := MaxEnd(p.left, |p.left|);
    var i :| 0 <= i < |p.left| && p.left[i].x1 == e;
    forall g | g in chars ensures g.x1 <= e || hi <= g.x0 {
      InOnePart(chars, p, g);
      if g in p.left { var n :| 0 <= n < |p.left| && p.left[n] == g; }
    }
    assert p.left[i] in p.left && p.right[0] in p.right;
    assert p.left[i] in chars && p.right[0] in chars;
    PartOfStrip(chars, e, hi, p.left[i], p.right[0]);
    assert Gutter(chars, e, hi, minGap);
  }

  /** And it is a gutter of neither part. */
  lemma CutGutterIsGone(p: Parts, lo: real, hi: real, minGap: real)
    requires p.left != [] && lo < hi
    requires (forall g :: g in p.left ==> g.x1 <= lo) && (forall g :: g in p.right ==> hi <= g.x0)
    ensures var e := MaxEnd(p.left, |p.left|);
      !BeginsAt(p.left, e, minGap) && !BeginsAt(p.right, e, minGap)
  {
    MaxEndIsMax(p.left, |p.left|);
    var e := MaxEnd(p.left, |p.left|);
    var i :| 0 <= i < |p.left| && p.left[i].x1 == e;
    assert p.left[i] in p.left;
    forall top ensures !Gutter(p.left, e, top, minGap) {
      forall j | 0 <= j < |p.left| ensures p.left[j].x0 <= e {
        assert p.left[j].x1 <= e;
      }
    }
    forall g | g in p.right ensures g.x1 != e {
      assert g.x0 <= g.x1;
    }
  }

  lemma FewerElements(a: set<real>, b: set<real>, x: real)
    requires a <= b && x in b && x !in a
    ensures |a| < |b|
  {
    assert a <= b - {x};
    assert b == (b - {x} - a) + a + {x};
  }

  lemma PartHasFewerGaps(cut: Cutter, minGap: real, chars: seq<Glyph>, part: seq<Glyph>)
    requires Exact(cut, minGap) && chars != [] && cut(chars).Some?
    requires part == cut(chars).value.left || part == cut(chars).value.right
    ensures |GapEnds(part, minGap)| < |GapEnds(chars, minGap)|
  {
    assert ExactOn(cut, chars, minGap);
    var p := cut(chars).value;
    var lo, hi :| CutsAt(chars, p, lo, hi, minGap);
    var e := MaxEnd(p.left, |p.left|);
    CutGutterBegins(chars, p, lo, hi, minGap);
    CutGutterIsGone(p, lo, hi, minGap);
    GapEndsAreGutters(chars, minGap, e);
    GapEndsAreGutters(part, minGap, e);
    forall x | x in GapEnds(part, minGap) ensures x in GapEnds(chars, minGap) {
      GapEndsAreGutters(part, minGap, x);
      PartsGutterIsWholes(chars, p, lo, hi, minGap, part, x);
      GapEndsAreGutters(chars, minGap, x);
    }
    FewerElements(GapEnds(part, minGap), GapEnds(chars, minGap), e);
  }

  /** Every level of the recursion uses up a gap. */
  lemma {:induction false} LimitTakesManyGaps(cut: Cutter, minGap: real, chars: seq<Glyph>, depth: nat)
    requires Exact(cut, minGap) && chars != [] && depth <= DEPTH_LIMIT + 1
    requires HitsLimit(cut, chars, depth)
    ensures |GapEnds(chars, minGap)| + depth >= DEPTH_LIMIT + 2
    decreases DEPTH_LIMIT + 1 - depth
  {
    if depth <= DEPTH_LIMIT {
      var part := if HitsLimit(cut, cut(chars).value.left, depth + 1) then cut(chars).value.left
                  else cut(chars).value.right;
      PartsAreNotEmpty(cut, minGap, chars);
      LimitTakesManyGaps(cut, minGap, part, depth + 1);
      PartHasFewerGaps(cut, minGap, chars, part);
    } else {
      PartHasFewerGaps(cut, minGap, chars, cut(chars).value.left);
    }
  }

  /** And every level leaves a column beside it. */
  lemma {:induction false} LimitLeavesManyColumns(cut: Cutter, minGap: real, chars: seq<Glyph>, depth: nat)
    requires Exact(cut, minGap) && chars != [] && depth <= DEPTH_LIMIT + 1
    ensures |Split(cut, chars, depth)| > 0
    ensures HitsLimit(cut, chars, depth) ==> |Split(cut, chars, depth)| + depth >= DEPTH_LIMIT + 2
    decreases DEPTH_LIMIT + 1 - depth
  {
    if depth <= DEPTH_LIMIT && cut(chars).Some? {
      var p := cut(chars).value;
      PartsAreNotEmpty(cut, minGap, chars);
      LimitLeavesManyColumns(cut, minGap, p.left, depth + 1);
      LimitLeavesManyColumns(cut, minGap, p.right, depth + 1);
    }
  }

  /**
   * What a caller gets: the columns partition the glyphs in reading order; one of
   * them keeps a gutter exactly when the depth limit was hit, which takes more
   * than eleven wide gaps in the page and leaves more than eleven columns.
   */
  lemma ColumnsAreReadable(chars: seq<Glyph>, scale: real, width: real)
    requires chars != []
    ensures var cols := SplitColumns(chars, scale, width);
      var minGap := MinGap(scale, width);
      && Bag(cols) == multiset(chars)
      && minGap == (if 2.5 * scale >= 0.04 * width then 2.5 * scale else 0.04 * width)
      && ReadingOrder(cols, chars, minGap)
      && (NoGutters(cols, minGap) <==> !HitsLimit(CutterFor(minGap), chars, 0))
      && (|GapEnds(chars, minGap)| <= DEPTH_LIMIT + 1 || |cols| <= DEPTH_LIMIT + 1 ==> NoGutters(cols, minGap))
  {
    var minGap := MinGap(scale, width);
    CutterIsExact(minGap);
    SplitIsInReadingOrder(CutterFor(minGap), minGap, chars, 0);
    ColumnsHoldAll(CutterFor(minGap), minGap, chars);
    GutterLeftIffLimitHit(CutterFor(minGap), minGap, chars, 0);
    LimitLeavesManyColumns(CutterFor(minGap), minGap, chars, 0);
    if HitsLimit(CutterFor(minGap), chars, 0) {
      LimitTakesManyGaps(CutterFor(minGap), minGap, chars, 0);
    }
  }

  // ----- a page on which a gutter is left -----

  const STEPS := DEPTH_LIMIT + 2

  /** A page 500 wide with glyphs 8 high: a gutter is at least 20 wide. */
  const SCALE := 8.0
  const WIDTH := 500.0
  const GUTTER := 20.0
  const MARGIN := 50.0
  const DOT := 4.0

  /** Dots with ever narrower gaps, the last of them still wider than a gutter has to be. */
  function GapBehind(i: nat): real {
    GUTTER + (STEPS - i) as real
  }

  function DotAt(i: nat): real {
    if i == 0 then MARGIN else DotAt(i - 1) + DOT + GapBehind(i - 1)
  }

  function DotEnd(i: nat): real {
    DotAt(i) + DOT
  }

  function Dot(i: nat): Glyph {
    Box(DotAt(i), DotEnd(i), i)
  }

  /** The dots from k on. */
  function Dots(k: nat): (gs: seq<Glyph>)
    requires k <= STEPS
    ensures |gs| == STEPS + 1 - k
    ensures forall i :: 0 <= i < |gs| ==> gs[i] == Dot(k + i)
    decreases STEPS - k
  {
    if k == STEPS then [Dot(k)] else [Dot(k)] + Dots(k + 1)
  }

  lemma {:induction false} DotsAscend(i: nat, j: nat)
    requires i < j <= STEPS
    ensures DotEnd(i) + GapBehind(i) <= DotAt(j)
    decreases j
  {
    if i < j - 1 { DotsAscend(i, j - 1); }
  }

  ghost predicate ClearOfDots(k: nat, lo: real, hi: real) {
    forall i: nat :: k <= i <= STEPS ==> DotEnd(i) <= lo || hi <= DotAt(i)
  }

  lemma {:induction false} NeighboursOf(k: nat, r: nat, right: nat, lo: real, hi: real) returns (j: nat)
    requires ClearOfDots(k, lo, hi) && k <= r <= right <= STEPS && lo < hi
    requires DotEnd(r) <= lo && hi <= DotAt(right)
    ensures k <= j < STEPS && DotEnd(j) <= lo && hi <= DotAt(j + 1)
    decreases right - r
  {
    if hi <= DotAt(r + 1) {
      j := r;
    } else {
      j := NeighboursOf(k, r + 1, right, lo, hi);
    }
  }

  ghost predicate AreDots(gs: seq<Glyph>, k: nat) {
    k <= STEPS && |gs| == STEPS + 1 - k && forall i: nat :: i < |gs| ==> gs[i] == Dot(k + i)
  }

  lemma ClearDots(gs: seq<Glyph>, k: nat, lo: real, hi: real)
    requires AreDots(gs, k) && Strip(gs, lo, hi)
    ensures ClearOfDots(k, lo, hi)
  {
    forall i: nat | k <= i <= STEPS ensures DotEnd(i) <= lo || hi <= DotAt(i) {
      assert gs[i - k] == Dot(i);
    }
  }

  lemma BetweenDots(k: nat, r: nat, right: nat, lo: real, hi: real) returns (j: nat)
    requires ClearOfDots(k, lo, hi) && lo < hi && k <= r <= STEPS && k <= right <= STEPS
    requires DotEnd(r) <= lo && hi <= DotAt(right)
    ensures k <= j < STEPS && DotEnd(j) <= lo && hi <= DotAt(j + 1)
  {
    if right < r { DotsAscend(right, r); }
    j := NeighboursOf(k, r, right, lo, hi);
  }

  lemma StripHasSides(gs: seq<Glyph>, lo: real, hi: real) returns (left: nat, right: nat)
    requires Strip(gs, lo, hi)
    ensures left < |gs| && gs[left].x1 <= lo && right < |gs| && hi <= gs[right].x0
  {
    left :| left < |gs| && gs[left].x1 <= lo;
    right :| right < |gs| && hi <= gs[right].x0;
  }

  lemma DotHasEdges(gs: seq<Glyph>, k: nat, i: nat)
    requires AreDots(gs, k) && i < |gs|
    ensures k + i <= STEPS && gs[i].x0 == DotAt(k + i) && gs[i].x1 == DotEnd(k + i)
  {
    assert gs[i] == Dot(k + i);
  }

  /** A strip among the dots lies between two neighbours. */
  lemma StripBetweenDots(gs: seq<Glyph>, k: nat, lo: real, hi: real) returns (j: nat)
    requires AreDots(gs, k) && Strip(gs, lo, hi)
    ensures k <= j < STEPS && DotEnd(j) <= lo && hi <= DotAt(j + 1)
  {
    var left, right := StripHasSides(gs, lo, hi);
    ClearDots(gs, k, lo, hi);
    DotHasEdges(gs, k, left);
    DotHasEdges(gs, k, right);
    j := BetweenDots(k, k + left, k + right, lo, hi);
  }

  /** The widest gutter is the first, so the first dot is cut off alone. */
  lemma FirstDotIsCutOff(k: nat)
    requires k < STEPS
    ensures PartsOf(Dots(k), GUTTER) == Some(Parts([Dot(k)], Dots(k + 1)))
  {
    var gs := Dots(k);
    DotsAscend(k, k + 1);
    FirstGapIsGutter(k);
    CutIsExact(gs, GUTTER);
    var cut := FindCut(gs, GUTTER).value;
    var lo, hi :| WidestGutter(gs, GUTTER, lo, hi, cut);
    var j := StripBetweenDots(gs, k, lo, hi);
    assert DotAt(j + 1) == DotEnd(j) + GapBehind(j);
    assert hi - lo >= GapBehind(k);
    assert j == k;
    assert cut == (DotEnd(k) + DotAt(k + 1)) / 2.0;
    SidesOfDots(k, cut);
  }

  lemma FirstGapIsGutter(k: nat)
    requires k < STEPS
    ensures Gutter(Dots(k), DotEnd(k), DotAt(k + 1), GUTTER)
    ensures DotAt(k + 1) - DotEnd(k) == GapBehind(k)
  {
    var gs := Dots(k);
    forall i | 0 <= i < |gs| ensures gs[i].x1 <= DotEnd(k) || DotAt(k + 1) <= gs[i].x0 {
      if i > 1 { DotsAscend(k + 1, k + i); }
    }
    assert gs[0] == Dot(k) && gs[1] == Dot(k + 1);
    assert Strip(gs, DotEnd(k), DotAt(k + 1));
  }

  lemma SidesOfDots(k: nat, cut: real)
    requires k < STEPS && DotEnd(k) < cut < DotAt(k + 1)
    ensures Side(Dots(k), cut, true) == [Dot(k)] && Side(Dots(k), cut, false) == Dots(k + 1)
  {
    var gs := Dots(k);
    forall i | 0 < i < |gs| ensures !IsLeft(gs[i], cut) {
      if i > 1 { DotsAscend(k + 1, k + i); }
    }
    FirstAlone(gs, cut);
    assert gs[1..] == Dots(k + 1);
  }

  lemma {:induction false} FirstAlone(gs: seq<Glyph>, cut: real)
    requires gs != [] && IsLeft(gs[0], cut) && forall i :: 0 < i < |gs| ==> !IsLeft(gs[i], cut)
    ensures Side(gs, cut, true) == [gs[0]] && Side(gs, cut, false) == gs[1..]
  {
    var n := |gs| - 1;
    if n > 0 {
      FirstAlone(gs[..n], cut);
    } else {
      assert gs[..n] == [];
    }
  }

  lemma {:induction false} DotsHitLimit(k: nat)
    requires k <= DEPTH_LIMIT + 1
    ensures HitsLimit(CutterFor(GUTTER), Dots(k), k)
    decreases DEPTH_LIMIT + 1 - k
  {
    FirstDotIsCutOff(k);
    if k <= DEPTH_LIMIT { DotsHitLimit(k + 1); }
  }

  lemma {:induction false} DotsAreOnPage(k: nat)
    requires k <= STEPS
    ensures MARGIN <= DotAt(k) <= MARGIN + 36.0 * k as real
  {
    if k > 0 { DotsAreOnPage(k - 1); }
  }

  /** The limit is hit: of thirteen dots on a page two are left in one column. */
  lemma AGutterCanStay()
    ensures |Dots(0)| == 13 && MinGap(SCALE, WIDTH) == GUTTER
    ensures forall i :: 0 <= i < 13 ==> 0.0 <= Dots(0)[i].x0 && Dots(0)[i].x1 <= WIDTH
    ensures !NoGutters(SplitColumns(Dots(0), SCALE, WIDTH), MinGap(SCALE, WIDTH))
  {
    DotsHitLimit(0);
    ColumnsAreReadable(Dots(0), SCALE, WIDTH);
    forall i | 0 <= i < 13 ensures 0.0 <= Dots(0)[i].x0 && Dots(0)[i].x1 <= WIDTH {
      DotsAreOnPage(i);
    }
  }
}
