/**
 * docreader/splitter/splitter.py, second and third stage: choosing the
 * protected spans and cutting the splits around them.
 */
module ProtectedSpans {
  import opened Text
  import opened Pieces
  import Sorting

  /** One regular-expression match. */
  datatype Match = Match(start: nat, end: nat)

  /** A protected span that is kept, with its content. */
  datatype Guard = Guard(start: nat, content: string) {
    function End(): nat { start + |content| }
  }

  ghost predicate Within(matches: seq<Match>, text: string) {
    forall i :: 0 <= i < |matches| ==> matches[i].start <= matches[i].end <= |text|
  }

  // ----- TextSplitter._split_protected -----

  /** Sort key (start, -end). */
  predicate Before(a: Match, b: Match) {
    a.start < b.start || (a.start == b.start && a.end >= b.end)
  }

  function Ordered(matches: seq<Match>): seq<Match> {
    Sorting.Sort(Before, matches)
  }

  lemma OrderedKeeps(matches: seq<Match>)
    ensures Sorting.Sorted(Before, Ordered(matches))
    ensures |Ordered(matches)| == |matches| && (forall m :: m in Ordered(matches) <==> m in matches)
  {
    Sorting.SortSorts(Before, matches);
  }

  function Max(a: int, b: int): int { if a >= b then a else b }

  predicate Fits(m: Match, size: int) { m.end - m.start < size }

  function Keep(text: string, ms: seq<Match>, from: int, size: int): seq<Guard>
    requires Within(ms, text)
  {
    if ms == [] then []
    else
      var m := ms[0];
      var rest := Keep(text, ms[1..], Max(from, m.end), size);
      if m.start >= from && Fits(m, size) then [Guard(m.start, text[m.start..m.end])] + rest else rest
  }

  /** Guards in text order from `from` on, disjoint, each shorter than a chunk. */
  ghost predicate GuardsOf(gs: seq<Guard>, text: string, from: int, size: int) {
    gs == [] ||
    (&& from <= gs[0].start && gs[0].End() <= |text|
     && gs[0].content == text[gs[0].start..gs[0].End()] && |gs[0].content| < size
     && GuardsOf(gs[1..], text, gs[0].End(), size))
  }

  lemma {:induction false} GuardsFromEarlier(gs: seq<Guard>, text: string, from: int, to: int, size: int)
    requires GuardsOf(gs, text, from, size) && (to <= from || (gs != [] && to <= gs[0].start))
    ensures GuardsOf(gs, text, to, size)
  {
  }

  lemma {:induction false} GuardsAreDisjoint(gs: seq<Guard>, text: string, from: int, size: int)
    requires GuardsOf(gs, text, from, size)
    ensures forall i :: 0 <= i < |gs| ==>
              from <= gs[i].start && gs[i].End() <= |text| && |gs[i].content| < size
              && gs[i].content == text[gs[i].start..gs[i].End()]
    ensures forall i, j :: 0 <= i < j < |gs| ==> gs[i].End() <= gs[j].start
  {
    if gs != [] {
      GuardsAreDisjoint(gs[1..], text, gs[0].End(), size);
    }
  }

  lemma {:induction false} KeptAreDisjoint(text: string, ms: seq<Match>, from: int, size: int)
    requires Within(ms, text)
    ensures GuardsOf(Keep(text, ms, from, size), text, from, size)
  {
    if ms != [] {
      var to := Max(from, ms[0].end);
      KeptAreDisjoint(text, ms[1..], to, size);
      if !(ms[0].start >= from && Fits(ms[0], size)) {
        GuardsFromEarlier(Keep(text, ms[1..], to, size), text, to, from, size);
      }
    }
  }

  ghost predicate ClearOf(ms: seq<Match>, i: nat, from: int, size: int)
    requires i < |ms|
  {
    from <= ms[i].start && Fits(ms[i], size) && forall j :: 0 <= j < i ==> ms[j].end <= ms[i].start
  }

  /**
   * Exactly which matches are kept: those that fit and begin at or after the
   * end of every match sorted before them, kept or not.
   */
  lemma {:induction false} KeptExactly(text: string, ms: seq<Match>, from: int, size: int, g: Guard)
    requires Within(ms, text)
    ensures g in Keep(text, ms, from, size) <==>
            exists i :: 0 <= i < |ms| && ClearOf(ms, i, from, size)
                        && g == Guard(ms[i].start, text[ms[i].start..ms[i].end])
  {
    if ms != [] {
      var rest := ms[1..];
      var to := Max(from, ms[0].end);
      KeptExactly(text, rest, to, size, g);
      forall i | 0 <= i < |rest| ensures ClearOf(rest, i, to, size) <==> ClearOf(ms, i + 1, from, size) {
        assert rest[i] == ms[i + 1];
        if ClearOf(ms, i + 1, from, size) {
          forall j | 0 <= j < i ensures rest[j].end <= rest[i].start {
            assert rest[j] == ms[j + 1];
          }
        }
        if ClearOf(rest, i, to, size) {
          forall j | 0 <= j < i + 1 ensures ms[j].end <= ms[i + 1].start {
            assert j > 0 ==> ms[j] == rest[j - 1];
          }
        }
      }
      if i :| 0 <= i < |rest| && ClearOf(rest, i, to, size)
              && g == Guard(rest[i].start, text[rest[i].start..rest[i].end]) {
        assert ClearOf(ms, i + 1, from, size);
      }
      if i :| 0 <= i < |ms| && ClearOf(ms, i, from, size)
              && g == Guard(ms[i].start, text[ms[i].start..ms[i].end]) {
        if i > 0 {
          assert ClearOf(rest, i - 1, to, size);
        }
      }
    }
  }

  function Protect(text: string, matches: seq<Match>, size: int): seq<Guard>
    requires Within(Ordered(matches), text)
  {
    Keep(text, Ordered(matches), -1, size)
  }

  predicate Kept(m: Match, from: int, size: int) {
    m.start >= from && Fits(m, size)
  }

  lemma KeepNext(text: string, ms: seq<Match>, from: int, size: int, res: seq<Guard>)
    requires Within(ms, text) && ms != []
    ensures var g := Guard(ms[0].start, text[ms[0].start..ms[0].end]);
      (if Kept(ms[0], from, size) then res + [g] else res) + Keep(text, ms[1..], Max(from, ms[0].end), size)
      == res + Keep(text, ms, from, size)
  {
    Associative(res, [Guard(ms[0].start, text[ms[0].start..ms[0].end])],
                Keep(text, ms[1..], Max(from, ms[0].end), size));
  }

  method SplitProtected(text: string, matches: seq<Match>, size: int) returns (res: seq<Guard>)
    requires Within(matches, text)
    ensures Within(Ordered(matches), text)
    ensures res == Protect(text, matches, size)
  {
    OrderedKeeps(matches);
    var sorted := Ordered(matches);
    assert forall i :: 0 <= i < |sorted| ==> sorted[i] in matches;
    res := KeepSorted(text, sorted, size);
  }

  method KeepSorted(text: string, sorted: seq<Match>, size: int) returns (res: seq<Guard>)
    requires Within(sorted, text)
    ensures res == Keep(text, sorted, -1, size)
  {
    res := [];
    var initial := -1;
    assert sorted[0..] == sorted;
    for i := 0 to |sorted|
      invariant Within(sorted[i..], text)
      invariant res + Keep(text, sorted[i..], initial, size) == Keep(text, sorted, -1, size)
    {
      var current := sorted[i];
      KeepNext(text, sorted[i..], initial, size, res);
      assert sorted[i..][1..] == sorted[i + 1..];
      if current.start >= initial && current.end - current.start < size {
        res := res + [Guard(current.start, text[current.start..current.end])];
      }
      initial := Max(initial, current.end);
    }
  }

  // ----- TextSplitter._join -----

  ghost predicate Laid(text: string, splits: seq<string>, start: nat, gs: seq<Guard>, point: nat, size: int) {
    && start <= point <= |text|
    && text[start..] == Concat(splits)
    && GuardsOf(gs, text, point, size)
  }

  lemma LaidNext(text: string, splits: seq<string>, start: nat, gs: seq<Guard>, point: nat, size: int)
    requires Laid(text, splits, start, gs, point, size) && splits != []
    ensures var end := start + |splits[0]|;
      && end <= |text| && text[start..end] == splits[0]
      && (gs != [] && gs[0].start < end ==> Laid(text, splits, start, gs[1..], gs[0].End(), size))
      && (gs == [] || end <= gs[0].start ==> Laid(text, splits[1..], end, gs, Max(point, end), size))
  {
    var end := start + |splits[0]|;
    assert text[start..] == splits[0] + Concat(splits[1..]);
    assert text[start..][..|splits[0]|] == text[start..end];
    assert text[start..][|splits[0]|..] == text[end..];
  }

  /** The text from a to b as one piece, if there is any. */
  function Between(text: string, a: nat, b: nat): seq<string> {
    if a < b <= |text| then [text[a..b]] else []
  }

  /**
   * The pieces `res` continued from `point`: every guard whole, cut loose from
   * the splits it lies in, the rest cut where the splits end.
   */
  function Isolate(text: string, splits: seq<string>, start: nat, gs: seq<Guard>, point: nat, res: seq<string>)
    : seq<string>
    decreases |splits| + |gs|
  {
    if splits == [] then res
    else
      var end := start + |splits[0]|;
      if gs != [] && gs[0].start < end then
        Isolate(text, splits, start, gs[1..], gs[0].End(), res + Between(text, point, gs[0].start) + [gs[0].content])
      else
        Isolate(text, splits[1..], end, gs, Max(point, end), res + Between(text, point, end))
  }

  lemma AddPiece(text: string, res: seq<string>, a: nat, b: nat)
    requires a <= b <= |text| && Concat(res) == text[..a]
    ensures Concat(res + Between(text, a, b)) == text[..b]
    ensures Concat(res + [text[a..b]]) == text[..b]
  {
    ConcatAppend(res, [text[a..b]]);
    ConcatSingle(text[a..b]);
    assert text[..b] == text[..a] + text[a..b];
    if a == b {
      assert res + [] == res;
    }
  }

  /** The pieces concatenate to the text. */
  lemma {:induction false} IsolateKeepsText(text: string, splits: seq<string>, start: nat, gs: seq<Guard>,
                                            point: nat, res: seq<string>, size: int)
    requires Laid(text, splits, start, gs, point, size)
    requires Concat(res) == text[..point]
    ensures Concat(Isolate(text, splits, start, gs, point, res)) == text
    decreases |splits| + |gs|
  {
    if splits == [] {
      assert text[..point] == text;
    } else {
      LaidNext(text, splits, start, gs, point, size);
      var end := start + |splits[0]|;
      if gs != [] && gs[0].start < end {
        var lead := res + Between(text, point, gs[0].start);
        AddPiece(text, res, point, gs[0].start);
        AddPiece(text, lead, gs[0].start, gs[0].End());
        IsolateKeepsText(text, splits, start, gs[1..], gs[0].End(), lead + [gs[0].content], size);
      } else {
        if point <= end {
          AddPiece(text, res, point, end);
        } else {
          assert res + [] == res;
        }
        IsolateKeepsText(text, splits[1..], end, gs, Max(point, end), res + Between(text, point, end), size);
      }
    }
  }

  ghost predicate GoodPieces(ps: seq<string>, size: int, whole: bool) {
    forall k :: 0 <= k < |ps| ==> |ps[k]| <= size && (whole ==> ps[k] != "")
  }

  /**
   * Every piece fits in a chunk when every split does, and only an empty guard
   * gives an empty piece.
   */
  lemma {:induction false} IsolatedFit(text: string, splits: seq<string>, start: nat, gs: seq<Guard>,
                                       point: nat, res: seq<string>, size: int, whole: bool)
    requires Laid(text, splits, start, gs, point, size)
    requires GoodPieces(splits, size, false) && GoodPieces(res, size, whole)
    requires whole ==> forall i :: 0 <= i < |gs| ==> gs[i].content != ""
    ensures GoodPieces(Isolate(text, splits, start, gs, point, res), size, whole)
    decreases |splits| + |gs|
  {
    if splits != [] {
      LaidNext(text, splits, start, gs, point, size);
      var end := start + |splits[0]|;
      if gs != [] && gs[0].start < end {
        IsolatedFit(text, splits, start, gs[1..], gs[0].End(),
                    res + Between(text, point, gs[0].start) + [gs[0].content], size, whole);
      } else {
        IsolatedFit(text, splits[1..], end, gs, Max(point, end), res + Between(text, point, end), size, whole);
      }
    }
  }

  /** Guard g is one piece, at its own place. */
  ghost predicate IsPiece(ps: seq<string>, g: Guard) {
    exists k :: 0 <= k < |ps| && ps[k] == g.content && Pos(ps, k) == g.start
  }

  lemma {:induction false} IsolateExtends(text: string, splits: seq<string>, start: nat, gs: seq<Guard>,
                                          point: nat, res: seq<string>)
    ensures res <= Isolate(text, splits, start, gs, point, res)
    decreases |splits| + |gs|
  {
    if splits != [] {
      var end := start + |splits[0]|;
      if gs != [] && gs[0].start < end {
        IsolateExtends(text, splits, start, gs[1..], gs[0].End(),
                       res + Between(text, point, gs[0].start) + [gs[0].content]);
      } else {
        IsolateExtends(text, splits[1..], end, gs, Max(point, end), res + Between(text, point, end));
      }
    }
  }

  lemma LedPiece(ps: seq<string>, lead: seq<string>, g: Guard)
    requires lead + [g.content] <= ps && |Concat(lead)| == g.start
    ensures IsPiece(ps, g)
  {
    PosIsLength(ps, |lead|);
    assert ps[..|lead|] == lead && ps[|lead|] == g.content;
  }

  /**
   * Every guard that is not empty comes out as exactly one piece, even when it
   * crosses several splits.
   */
  lemma {:induction false} GuardsArePieces(text: string, splits: seq<string>, start: nat, gs: seq<Guard>,
                                           point: nat, res: seq<string>, size: int, i: nat)
    requires Laid(text, splits, start, gs, point, size)
    requires Concat(res) == text[..point]
    requires i < |gs| && gs[i].content != ""
    ensures IsPiece(Isolate(text, splits, start, gs, point, res), gs[i])
    decreases |splits| + |gs|
  {
    GuardsAreDisjoint(gs, text, point, size);
    if splits != [] {
      LaidNext(text, splits, start, gs, point, size);
      var end := start + |splits[0]|;
      if gs != [] && gs[0].start < end {
        var lead := res + Between(text, point, gs[0].start);
        AddPiece(text, res, point, gs[0].start);
        AddPiece(text, lead, gs[0].start, gs[0].End());
        if i == 0 {
          IsolateExtends(text, splits, start, gs[1..], gs[0].End(), lead + [gs[0].content]);
          LedPiece(Isolate(text, splits, start, gs, point, res), lead, gs[0]);
        } else {
          GuardsArePieces(text, splits, start, gs[1..], gs[0].End(), lead + [gs[0].content], size, i - 1);
        }
      } else {
        if point <= end {
          AddPiece(text, res, point, end);
        } else {
          assert res + [] == res;
        }
        GuardsArePieces(text, splits[1..], end, gs, Max(point, end), res + Between(text, point, end), size, i);
      }
    }
  }

  /** What is left of a split that ends at `end`, from `point` on. */
  ghost function Left(text: string, point: nat, end: nat): string
    requires end <= |text|
  {
    if point <= end then text[point..end] else ""
  }

  lemma LeftAdvances(text: string, point: nat, to: nat, end: nat)
    requires point <= to && end <= |text|
    ensures From(Left(text, point, end), to - point) == Left(text, to, end)
    ensures point < to <= end ==> [Upto(Left(text, point, end), to - point)] == Between(text, point, to)
  {
    if to <= end {
      assert text[point..end][..to - point] == text[point..to];
    }
  }

  lemma LeftOfSplit(text: string, split: string, start: nat, point: nat)
    requires start <= point && start + |split| <= |text| && text[start..start + |split|] == split
    ensures From(split, point - start) == Left(text, point, start + |split|)
  {
  }

  lemma NoGuardHere(text: string, splits: seq<string>, start: nat, gs: seq<Guard>, point: nat, res: seq<string>)
    requires splits != [] && start + |splits[0]| <= |text|
    requires gs == [] || start + |splits[0]| <= gs[0].start
    ensures var end := start + |splits[0]|;
      Isolate(text, splits, start, gs, point, res) ==
      Isolate(text, splits[1..], end, gs, Max(point, end), if point < end then res + [text[point..end]] else res)
  {
    assert res + [] == res;
  }

  lemma GuardHere(text: string, splits: seq<string>, start: nat, gs: seq<Guard>, point: nat, res: seq<string>)
    requires splits != [] && gs != [] && gs[0].start < start + |splits[0]|
    requires gs[0].start <= |text|
    ensures Isolate(text, splits, start, gs, point, res) ==
            Isolate(text, splits, start, gs[1..], gs[0].End(),
                    (if point < gs[0].start then res + [text[point..gs[0].start]] else res) + [gs[0].content])
  {
    assert res + [] == res;
  }

  /** The body of the inner loop: the text before the guard, then the guard. */
  method TakeGuard(text: string, end: nat, g: Guard, cur0: string, point0: nat, res0: seq<string>)
    returns (cur: string, point: nat, res: seq<string>)
    requires point0 <= g.start < end <= |text| && cur0 == Left(text, point0, end)
    ensures res == (if point0 < g.start then res0 + [text[point0..g.start]] else res0) + [g.content]
    ensures point == g.End() && cur == Left(text, point, end)
  {
    res := res0;
    if point0 < g.start {
      LeftAdvances(text, point0, g.start, end);
      res := res + [Upto(cur0, g.start - point0)];
    }
    res := res + [g.content];
    cur, point := AdvanceTo(text, end, cur0, point0, g.start);
    cur, point := AdvanceTo(text, end, cur, point, g.End());
  }

  method AdvanceTo(ghost text: string, ghost end: nat, cur0: string, point0: nat, to: nat)
    returns (cur: string, point: nat)
    requires point0 <= to && end <= |text| && cur0 == Left(text, point0, end)
    ensures point == to && cur == Left(text, to, end)
  {
    cur, point := cur0, point0;
    LeftAdvances(text, point, to, end);
    if point < to {
      cur := From(cur, to - point);
      point := to;
    }
  }

  /** The inner loop over the guards that begin in one split. */
  method TakeGuards(text: string, ghost splits: seq<string>, start: nat, end: nat, protect: seq<Guard>,
                    cur0: string, j0: nat, point0: nat, res0: seq<string>, ghost size: int)
    returns (cur: string, j: nat, point: nat, res: seq<string>)
    requires j0 <= |protect| && splits != [] && end == start + |splits[0]| <= |text|
    requires GuardsOf(protect[j0..], text, point0, size) && start <= point0 <= |text| && cur0 == Left(text, point0, end)
    ensures j0 <= j <= |protect| && GuardsOf(protect[j..], text, point, size)
    ensures j == |protect| || end <= protect[j].start
    ensures start <= point <= |text| && cur == Left(text, point, end)
    ensures Isolate(text, splits, start, protect[j..], point, res)
         == Isolate(text, splits, start, protect[j0..], point0, res0)
  {
    cur, j, point, res := cur0, j0, point0, res0;
    while j < |protect|
      invariant j0 <= j <= |protect| && GuardsOf(protect[j..], text, point, size)
      invariant start <= point <= |text| && cur == Left(text, point, end)
      invariant Isolate(text, splits, start, protect[j..], point, res)
             == Isolate(text, splits, start, protect[j0..], point0, res0)
      decreases |protect| - j
    {
      var g := protect[j];
      if end <= g.start {
        break;
      }
      assert protect[j..][0] == g && protect[j..][1..] == protect[j + 1..];
      GuardHere(text, splits, start, protect[j..], point, res);
      cur, point, res := TakeGuard(text, end, g, cur, point, res);
      j := j + 1;
      if cur == "" {
        assert end <= point;
        break;
      }
    }
  }

  method JoinPieces(text: string, splits: seq<string>, protect: seq<Guard>, ghost size: int) returns (res: seq<string>)
    requires Laid(text, splits, 0, protect, 0, size)
    ensures res == Isolate(text, splits, 0, protect, 0, [])
  {
    var j: nat, point: nat, start: nat := 0, 0, 0;
    var cur: string;
    res := [];
    for i := 0 to |splits|
      invariant j <= |protect|
      invariant Laid(text, splits[i..], start, protect[j..], point, size)
      invariant Isolate(text, splits[i..], start, protect[j..], point, res) == Isolate(text, splits, 0, protect, 0, [])
    {
      var split := splits[i];
      assert splits[i..][0] == split && splits[i..][1..] == splits[i + 1..];
      LaidNext(text, splits[i..], start, protect[j..], point, size);
      var end := start + |split|;
      LeftOfSplit(text, split, start, point);
      cur := From(split, point - start);
      cur, j, point, res := TakeGuards(text, splits[i..], start, end, protect, cur, j, point, res, size);
      LaidNext(text, splits[i..], start, protect[j..], point, size);
      NoGuardHere(text, splits[i..], start, protect[j..], point, res);
      if cur != "" {
        res := res + [cur];
        point := end;
      }
      start := end;
    }
  }
}
