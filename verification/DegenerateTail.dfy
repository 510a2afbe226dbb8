/**
 * Cutting the tail of a page on which the reader began to repeat itself. The page falls into items at
 * boundaries such as "12. " or a line break; a long run of one item at the end, the last of them
 * possibly broken off, is taken off from its first item on.
 */
module DegenerateTail {
  import opened Options
  import opened Text

  /** A boundary between items: where it begins and where the next item's own text begins. */
  datatype Boundary = Boundary(start: nat, end: nat)

  /** An item in its normal form, and where the boundary before it begins. */
  datatype Segment = Segment(norm: string, bound: nat)

  const MIN_RUN: nat := 5
  const MIN_LENGTH: nat := 10

  /** Boundaries as a scan from left to right finds them. */
  ghost predicate Scanned(bounds: seq<Boundary>, text: string) {
    && (forall i :: 0 <= i < |bounds| ==> bounds[i].start <= bounds[i].end <= |text|)
    && (forall i, j :: 0 <= i < j < |bounds| ==> bounds[i].end <= bounds[j].start)
  }

  function ItemStart(bounds: seq<Boundary>, k: nat): nat
    requires k <= |bounds|
  {
    if k == 0 then 0 else bounds[k - 1].end
  }

  function ItemBound(bounds: seq<Boundary>, k: nat): nat
    requires k <= |bounds|
  {
    if k == 0 then 0 else bounds[k - 1].start
  }

  function ItemEnd(text: string, bounds: seq<Boundary>, k: nat): nat
    requires k <= |bounds|
  {
    if k < |bounds| then bounds[k].start else |text|
  }

  /** The text of item k, between two boundaries. */
  function Item(text: string, bounds: seq<Boundary>, k: nat): string
    requires Scanned(bounds, text) && k <= |bounds|
  {
    assert k > 0 ==> bounds[k - 1].end <= |text|;
    assert 0 < k < |bounds| ==> bounds[k - 1].end <= bounds[k].start;
    text[ItemStart(bounds, k)..ItemEnd(text, bounds, k)]
  }

  function Segments(text: string, bounds: seq<Boundary>, norm: string -> string, n: nat): (segs: seq<Segment>)
    requires Scanned(bounds, text) && n <= |bounds| + 1
    ensures |segs| == n
    ensures forall k :: 0 <= k < n ==> segs[k] == Segment(norm(Item(text, bounds, k)), ItemBound(bounds, k))
  {
    if n == 0 then []
    else Segments(text, bounds, norm, n - 1)
         + [Segment(norm(Item(text, bounds, n - 1)), ItemBound(bounds, n - 1))]
  }

  /** An item without text, or a bare number: the stub of an item cut off. */
  predicate Stub(s: Segment, isNumber: string -> bool) {
    s.norm == "" || isNumber(s.norm)
  }

  /** How many items are left when the stubs at the end are dropped. */
  function Solid(segs: seq<Segment>, isNumber: string -> bool, n: nat): (m: nat)
    requires n <= |segs|
    ensures m <= n
    ensures forall k :: m <= k < n ==> Stub(segs[k], isNumber)
    ensures m > 0 ==> !Stub(segs[m - 1], isNumber)
  {
    if n > 0 && Stub(segs[n - 1], isNumber) then Solid(segs, isNumber, n - 1) else n
  }

  /** Where the run of v that ends before n begins. */
  function RunStart(segs: seq<Segment>, n: nat, v: string): (i: nat)
    requires n <= |segs|
    ensures i <= n
    ensures forall k :: i <= k < n ==> segs[k].norm == v
    ensures i > 0 ==> segs[i - 1].norm != v
  {
    if n > 0 && segs[n - 1].norm == v then RunStart(segs, n - 1, v) else n
  }

  /**
   * Items c to n are one repeated item v, from its first occurrence in the run: at least five of them,
   * of at least ten characters, the last one possibly broken off.
   */
  ghost predicate Degenerate(segs: seq<Segment>, n: nat, c: nat, v: string) {
    && c + 5 <= n <= |segs|
    && |v| >= 10
    && (forall k :: c <= k < n - 1 ==> segs[k].norm == v)
    && segs[n - 1].norm != "" && segs[n - 1].norm <= v
    && (c > 0 ==> segs[c - 1].norm != v)
  }

  /** The item at which the first n items are cut, if they are. */
  function CutItem(segs: seq<Segment>, n: nat): Option<nat>
    requires 0 < n <= |segs|
  {
    var last := segs[n - 1].norm;
    var i := RunStart(segs, n, last);
    if n - i >= MIN_RUN && |last| >= MIN_LENGTH then Some(i)
    else if n >= 2 && segs[n - 2].norm != "" && last <= segs[n - 2].norm then
      var canon := segs[n - 2].norm;
      var j := RunStart(segs, n - 1, canon);
      if n - j >= MIN_RUN && |canon| >= MIN_LENGTH then Some(j) else None
    else None
  }

  lemma {:induction false} RunStartIs(segs: seq<Segment>, n: nat, v: string, c: nat)
    requires c <= n <= |segs|
    requires forall k :: c <= k < n ==> segs[k].norm == v
    requires c > 0 ==> segs[c - 1].norm != v
    ensures RunStart(segs, n, v) == c
    decreases n
  {
    if c < n { RunStartIs(segs, n - 1, v, c); }
  }

  lemma CutIsDegenerate(segs: seq<Segment>, n: nat)
    requires 0 < n <= |segs| && segs[n - 1].norm != "" && CutItem(segs, n).Some?
    ensures exists v :: Degenerate(segs, n, CutItem(segs, n).value, v)
  {
    var last := segs[n - 1].norm;
    if n - RunStart(segs, n, last) >= MIN_RUN && |last| >= MIN_LENGTH {
      assert Degenerate(segs, n, CutItem(segs, n).value, last);
    } else {
      assert Degenerate(segs, n, CutItem(segs, n).value, segs[n - 2].norm);
    }
  }

  lemma DegenerateIsCut(segs: seq<Segment>, n: nat, c: nat, v: string)
    requires Degenerate(segs, n, c, v)
    ensures CutItem(segs, n) == Some(c)
  {
    var last := segs[n - 1].norm;
    assert segs[n - 2].norm == v;
    if last == v {
      RunStartIs(segs, n, v, c);
    } else {
      assert RunStart(segs, n, last) == n - 1;
      RunStartIs(segs, n - 1, v, c);
    }
  }

  /** The items are cut exactly where a degenerate run begins, and there is at most one such place. */
  lemma CutIsExact(segs: seq<Segment>, n: nat, c: nat)
    requires 0 < n <= |segs| && segs[n - 1].norm != ""
    ensures CutItem(segs, n) == Some(c) <==> exists v :: Degenerate(segs, n, c, v)
  {
    if CutItem(segs, n) == Some(c) { CutIsDegenerate(segs, n); }
    forall v | Degenerate(segs, n, c, v) ensures CutItem(segs, n) == Some(c) {
      DegenerateIsCut(segs, n, c, v);
    }
  }

  // ----- the text -----

  predicate Trimmed(c: char) {
    c == ' ' || c == '\t' || c == '\n'
  }

  function Collapsed(text: string, bounds: seq<Boundary>, norm: string -> string, isNumber: string -> bool): string
    requires Scanned(bounds, text)
  {
    var segs := Segments(text, bounds, norm, |bounds| + 1);
    var n := Solid(segs, isNumber, |segs|);
    if n == 0 || CutItem(segs, n).None? then text
    else
      var c := CutItem(segs, n).value;
      BoundFits(text, bounds, c);
      StripRight(text[..segs[c].bound], Trimmed)
  }

  lemma {:induction false} StripRightTrims(s: string, drop: char -> bool)
    ensures StripRight(s, drop) <= s
    ensures forall i :: |StripRight(s, drop)| <= i < |s| ==> drop(s[i])
    ensures StripRight(s, drop) != "" ==> !drop(s[|StripRight(s, drop)| - 1])
  {
    if s != "" && drop(s[|s| - 1]) { StripRightTrims(s[..|s| - 1], drop); }
  }

  /** An item that stands before another ends no later than the other's boundary begins. */
  lemma ItemsAscend(text: string, bounds: seq<Boundary>, k: nat, c: nat)
    requires Scanned(bounds, text) && k < c <= |bounds|
    ensures ItemStart(bounds, k) <= ItemEnd(text, bounds, k) <= ItemBound(bounds, c) <= |text|
  {
    assert bounds[k].start <= bounds[k].end;
    if k < c - 1 { assert bounds[k].end <= bounds[c - 1].start; }
    if k > 0 { assert bounds[k - 1].end <= bounds[k].start; }
  }

  /** The items of the text and how many of them are not stubs at its end. */
  ghost predicate Itemized(text: string, bounds: seq<Boundary>, norm: string -> string, isNumber: string -> bool,
                           segs: seq<Segment>, n: nat) {
    && Scanned(bounds, text)
    && segs == Segments(text, bounds, norm, |bounds| + 1)
    && n == Solid(segs, isNumber, |segs|)
  }

  /** Where no degenerate run ends the items, the text is left as it is. */
  lemma NothingToCut(text: string, bounds: seq<Boundary>, norm: string -> string, isNumber: string -> bool,
                     segs: seq<Segment>, n: nat)
    requires Itemized(text, bounds, norm, isNumber, segs, n)
    requires forall c: nat, v :: !Degenerate(segs, n, c, v)
    ensures Collapsed(text, bounds, norm, isNumber) == text
  {
    if n > 0 && CutItem(segs, n).Some? { CutIsDegenerate(segs, n); }
  }

  /**
   * Where one does, what is left is the text before the run's first item, without blanks at its end;
   * so every item before the run lies in it but for those blanks (ItemsAscend).
   */
  lemma CutBeforeRun(text: string, bounds: seq<Boundary>, norm: string -> string, isNumber: string -> bool,
                     segs: seq<Segment>, n: nat, c: nat, v: string)
    requires Itemized(text, bounds, norm, isNumber, segs, n)
    requires Degenerate(segs, n, c, v)
    ensures ItemBound(bounds, c) <= |text|
    ensures var rest := Collapsed(text, bounds, norm, isNumber);
      && rest <= text[..ItemBound(bounds, c)]
      && (forall i :: |rest| <= i < ItemBound(bounds, c) ==> Trimmed(text[i]))
      && (rest != "" ==> !Trimmed(rest[|rest| - 1]))
  {
    DegenerateIsCut(segs, n, c, v);
    BoundFits(text, bounds, c);
    StripRightTrims(text[..ItemBound(bounds, c)], Trimmed);
  }

  lemma BoundFits(text: string, bounds: seq<Boundary>, c: nat)
    requires Scanned(bounds, text) && c <= |bounds|
    ensures ItemBound(bounds, c) <= |text|
  {
    if c > 0 { ItemsAscend(text, bounds, c - 1, c); }
  }

  // ----- a second pass -----

  predicate NonEmpty(bounds: seq<Boundary>) {
    forall i :: 0 <= i < |bounds| ==> bounds[i].start < bounds[i].end
  }

  /** A degenerate run ends the first n items. */
  ghost predicate EndsInRun(segs: seq<Segment>, n: nat) {
    exists c: nat, v :: Degenerate(segs, n, c, v)
  }

  lemma CutIsShorter(text: string, bounds: seq<Boundary>, c: nat)
    requires Scanned(bounds, text) && NonEmpty(bounds) && c < |bounds|
    ensures ItemBound(bounds, c) < |text|
  {
    assert bounds[c].start < bounds[c].end <= |text|;
    if c > 0 { assert bounds[c - 1].end <= bounds[c].start; }
  }

  /** A pass leaves a text as it is exactly when no degenerate run ends its items. */
  lemma PassChangesIffRun(text: string, bounds: seq<Boundary>, norm: string -> string, isNumber: string -> bool,
                          segs: seq<Segment>, n: nat)
    requires Itemized(text, bounds, norm, isNumber, segs, n) && NonEmpty(bounds)
    ensures Collapsed(text, bounds, norm, isNumber) == text <==> !EndsInRun(segs, n)
  {
    if EndsInRun(segs, n) {
      var c: nat, v :| Degenerate(segs, n, c, v);
      CutBeforeRun(text, bounds, norm, isNumber, segs, n, c, v);
      CutIsShorter(text, bounds, c);
    } else {
      NothingToCut(text, bounds, norm, isNumber, segs, n);
    }
  }

  /** The first n items read the same. */
  predicate ReadAlike(a: seq<Segment>, b: seq<Segment>, n: nat) {
    n <= |a| && n <= |b| && forall k :: 0 <= k < n ==> a[k].norm == b[k].norm
  }

  lemma RunsAlike(a: seq<Segment>, b: seq<Segment>, n: nat)
    requires ReadAlike(a, b, n)
    ensures EndsInRun(a, n) ==> EndsInRun(b, n)
  {
    if EndsInRun(a, n) {
      var c: nat, v :| Degenerate(a, n, c, v);
      assert Degenerate(b, n, c, v);
    }
  }

  lemma {:induction false} SolidAlike(a: seq<Segment>, b: seq<Segment>, isNumber: string -> bool, n: nat)
    requires ReadAlike(a, b, n)
    ensures Solid(a, isNumber, n) == Solid(b, isNumber, n)
  {
    if n > 0 { SolidAlike(a, b, isNumber, n - 1); }
  }

  lemma {:induction false} StripRightBehind(s: string, drop: char -> bool, k: nat)
    requires k <= |StripRight(s, drop)|
    ensures |StripRight(s, drop)| <= |s| && StripRight(s, drop)[k..] == StripRight(s[k..], drop)
  {
    StripRightTrims(s, drop);
    if s != "" && drop(s[|s| - 1]) {
      var init := s[..|s| - 1];
      StripRightTrims(init, drop);
      StripRightBehind(init, drop, k);
      assert s[k..][..|s[k..]| - 1] == init[k..];
    }
  }

  /** The normal form does not depend on blanks at the end of an item. */
  ghost predicate IgnoresTrailingBlanks(norm: string -> string) {
    forall s :: norm(StripRight(s, Trimmed)) == norm(s)
  }

  lemma EarlierItemOfRest(text: string, bounds: seq<Boundary>, c: nat, rest: string, k: nat)
    requires Scanned(bounds, text) && 0 < c <= |bounds| && rest <= text
    requires Scanned(bounds[..c - 1], rest) && k < c - 1
    ensures Item(rest, bounds[..c - 1], k) == Item(text, bounds, k)
  {
    var again := bounds[..c - 1];
    assert again[k] == bounds[k] && again[k].start <= |rest|;
    assert ItemStart(again, k) == ItemStart(bounds, k);
  }

  lemma LastItemOfRest(text: string, bounds: seq<Boundary>, c: nat, rest: string)
    requires Scanned(bounds, text) && 0 < c <= |bounds|
    requires ItemBound(bounds, c) <= |text| && rest == StripRight(text[..ItemBound(bounds, c)], Trimmed)
    requires ItemStart(bounds, c - 1) <= |rest| && Scanned(bounds[..c - 1], rest)
    ensures Item(rest, bounds[..c - 1], c - 1) == StripRight(Item(text, bounds, c - 1), Trimmed)
  {
    var from, b := ItemStart(bounds, c - 1), ItemBound(bounds, c);
    assert ItemStart(bounds[..c - 1], c - 1) == from;
    StripRightBehind(text[..b], Trimmed, from);
    assert text[..b][from..] == text[from..b];
  }

  lemma NormOfRest(text: string, bounds: seq<Boundary>, norm: string -> string, c: nat, rest: string, k: nat)
    requires Scanned(bounds, text) && 0 < c <= |bounds| && IgnoresTrailingBlanks(norm)
    requires ItemBound(bounds, c) <= |text| && rest == StripRight(text[..ItemBound(bounds, c)], Trimmed)
    requires ItemStart(bounds, c - 1) <= |rest| && Scanned(bounds[..c - 1], rest) && rest <= text
    requires k < c
    ensures norm(Item(rest, bounds[..c - 1], k)) == norm(Item(text, bounds, k))
  {
    if k < c - 1 {
      EarlierItemOfRest(text, bounds, c, rest, k);
    } else {
      LastItemOfRest(text, bounds, c, rest);
    }
  }

  /** Items whose normal forms agree one by one read alike. */
  lemma ReadAlikeIf(text: string, bounds: seq<Boundary>, rest: string, again: seq<Boundary>, norm: string -> string)
    requires Scanned(bounds, text) && Scanned(again, rest) && |again| <= |bounds|
    requires forall k :: 0 <= k <= |again| ==> norm(Item(rest, again, k)) == norm(Item(text, bounds, k))
    ensures ReadAlike(Segments(rest, again, norm, |again| + 1), Segments(text, bounds, norm, |bounds| + 1), |again| + 1)
  {
  }

  /** The items of the rest read as they did in the text. */
  lemma RestReadsAlike(text: string, bounds: seq<Boundary>, norm: string -> string, c: nat, rest: string)
    requires Scanned(bounds, text) && 0 < c <= |bounds| && IgnoresTrailingBlanks(norm)
    requires ItemBound(bounds, c) <= |text| && rest == StripRight(text[..ItemBound(bounds, c)], Trimmed)
    requires ItemStart(bounds, c - 1) <= |rest| && Scanned(bounds[..c - 1], rest) && rest <= text
    ensures ReadAlike(Segments(rest, bounds[..c - 1], norm, c), Segments(text, bounds, norm, |bounds| + 1), c)
  {
    var again := bounds[..c - 1];
    forall k | 0 <= k <= |again| ensures norm(Item(rest, again, k)) == norm(Item(text, bounds, k)) {
      NormOfRest(text, bounds, norm, c, rest, k);
    }
    ReadAlikeIf(text, bounds, rest, again, norm);
  }

  lemma RunsOfRest(left: seq<Segment>, segs: seq<Segment>, isNumber: string -> bool, c: nat)
    requires ReadAlike(left, segs, c)
    ensures EndsInRun(left, Solid(left, isNumber, c)) <==> EndsInRun(segs, Solid(segs, isNumber, c))
  {
    SolidAlike(left, segs, isNumber, c);
    RunsAlike(left, segs, Solid(segs, isNumber, c));
    RunsAlike(segs, left, Solid(segs, isNumber, c));
  }

  lemma CollapsedIs(text: string, bounds: seq<Boundary>, norm: string -> string, isNumber: string -> bool,
                    segs: seq<Segment>, n: nat, c: nat, v: string)
    requires Itemized(text, bounds, norm, isNumber, segs, n) && Degenerate(segs, n, c, v)
    ensures c < |bounds| && ItemBound(bounds, c) <= |text|
    ensures Collapsed(text, bounds, norm, isNumber) == StripRight(text[..ItemBound(bounds, c)], Trimmed)
    ensures Collapsed(text, bounds, norm, isNumber) <= text[..ItemBound(bounds, c)]
  {
    DegenerateIsCut(segs, n, c, v);
    BoundFits(text, bounds, c);
    StripRightTrims(text[..ItemBound(bounds, c)], Trimmed);
  }

  lemma RestPass(rest: string, again: seq<Boundary>, norm: string -> string, isNumber: string -> bool,
                 segs: seq<Segment>, c: nat)
    requires Scanned(again, rest) && NonEmpty(again) && c == |again| + 1
    requires ReadAlike(Segments(rest, again, norm, c), segs, c)
    ensures Collapsed(rest, again, norm, isNumber) == rest <==> !EndsInRun(segs, Solid(segs, isNumber, c))
  {
    var left := Segments(rest, again, norm, c);
    PassChangesIffRun(rest, again, norm, isNumber, left, Solid(left, isNumber, c));
    RunsOfRest(left, segs, isNumber, c);
  }

  // ----- the boundaries that are left -----

  predicate AllBlank(s: string) {
    forall i :: 0 <= i < |s| ==> Trimmed(s[i])
  }

  /**
   * A boundary is a run of line breaks, or the text behind it begins with what is no blank: the
   * pattern of a numbered item takes every blank behind the number.
   */
  ghost predicate Anchored(bounds: seq<Boundary>, text: string)
    requires Scanned(bounds, text)
  {
    forall i, j :: 0 <= i < j < |bounds| && j == i + 1 ==> AnchoredAt(text, bounds[i], bounds[j].start)
  }

  predicate AnchoredAt(text: string, b: Boundary, next: nat)
    requires b.start <= b.end <= next <= |text|
  {
    AllBlank(text[b.start..b.end]) || (b.end < next && !Trimmed(text[b.end]))
  }

  /** How many boundaries end within the first `length` characters. */
  function Left(bounds: seq<Boundary>, length: nat): (m: nat)
    ensures m <= |bounds|
    ensures m > 0 ==> bounds[m - 1].end <= length
    ensures forall i :: m <= i < |bounds| ==> bounds[i].end > length
  {
    if bounds == [] then 0
    else if bounds[|bounds| - 1].end <= length then |bounds|
    else Left(bounds[..|bounds| - 1], length)
  }

  lemma EarlierStart(bounds: seq<Boundary>, text: string, i: nat, j: nat)
    requires Scanned(bounds, text) && i <= j < |bounds|
    ensures bounds[i].start <= bounds[i].end <= |text| && bounds[i].start <= bounds[j].start
    ensures i < j ==> bounds[i].end <= bounds[j].start
  {
  }

  lemma LeftIsScanned(text: string, bounds: seq<Boundary>, rest: string)
    requires Scanned(bounds, text) && rest <= text
    ensures Scanned(bounds[..Left(bounds, |rest|)], rest)
  {
    FirstOnesAreScanned(text, bounds, rest, Left(bounds, |rest|));
  }

  lemma FirstOnesAreScanned(text: string, bounds: seq<Boundary>, rest: string, m: nat)
    requires Scanned(bounds, text) && m <= |bounds| && (m > 0 ==> bounds[m - 1].end <= |rest|)
    ensures Scanned(bounds[..m], rest)
  {
    forall i | 0 <= i < m ensures bounds[i].start <= bounds[i].end <= |rest| {
      EarlierStart(bounds, text, i, m - 1);
      EarlierStart(bounds, text, m - 1, m - 1);
    }
  }

  /** A boundary in what is cut off is cut off whole. */
  lemma NotInside(text: string, b: nat, rest: string, cut: Boundary, next: nat)
    requires b <= |text| && rest == StripRight(text[..b], Trimmed)
    requires cut.start <= cut.end <= next <= b && AnchoredAt(text, cut, next) && |rest| < cut.end
    ensures |rest| <= cut.start
  {
    var front, whole := text[..b], text[cut.start..cut.end];
    StripRightTrims(front, Trimmed);
    forall i | |rest| <= i < b ensures Trimmed(text[i]) {
      assert front[i] == text[i];
    }
    forall i | cut.start <= i < cut.end && AllBlank(whole) ensures Trimmed(text[i]) {
      assert whole[i - cut.start] == text[i];
    }
  }

  lemma LeftIsBelow(text: string, bounds: seq<Boundary>, c: nat, length: nat)
    requires Scanned(bounds, text) && 0 < c <= |bounds| && length < bounds[c - 1].end
    ensures Left(bounds, length) < c
  {
    forall i | c - 1 <= i < |bounds| ensures bounds[i].end > length {
      EarlierStart(bounds, text, c - 1, i);
    }
  }

  /** The first boundary that is not left begins behind the rest. */
  lemma NoBoundaryInTwo(text: string, bounds: seq<Boundary>, c: nat, rest: string, m: nat)
    requires Scanned(bounds, text) && Anchored(bounds, text) && m < c <= |bounds|
    requires rest == StripRight(text[..bounds[c - 1].start], Trimmed) && |rest| < bounds[m].end
    ensures |rest| <= bounds[m].start <= bounds[c - 1].start
  {
    var b := bounds[c - 1].start;
    StripRightTrims(text[..b], Trimmed);
    EarlierStart(bounds, text, m, c - 1);
    if m < c - 1 {
      EarlierStart(bounds, text, m + 1, c - 1);
      EarlierStart(bounds, text, m, m + 1);
      assert AnchoredAt(text, bounds[m], bounds[m + 1].start);
      NotInside(text, b, rest, bounds[m], bounds[m + 1].start);
    }
  }

  lemma {:induction false} StripShorter(s: string, drop: char -> bool, b: nat)
    requires |StripRight(s, drop)| <= b <= |s|
    ensures StripRight(s[..b], drop) == StripRight(s, drop)
  {
    if b < |s| {
      StripRightTrims(s, drop);
      var init := s[..|s| - 1];
      StripShorter(init, drop, b);
      assert init[..b] == s[..b];
    } else {
      assert s[..b] == s;
    }
  }

  lemma BlankStrips(s: string)
    requires AllBlank(s)
    ensures StripRight(s, Trimmed) == ""
  {
    if s != "" { BlankStrips(s[..|s| - 1]); }
  }

  /** The items between the end of the rest and the cut are stubs. */
  lemma BlankItem(text: string, bounds: seq<Boundary>, norm: string -> string, c: nat, rest: string, k: nat)
    requires Scanned(bounds, text) && IgnoresTrailingBlanks(norm) && norm("") == ""
    requires 0 < c <= |bounds| && rest == StripRight(text[..bounds[c - 1].start], Trimmed)
    requires Left(bounds, |rest|) < k < c
    ensures norm(Item(text, bounds, k)) == ""
  {
    var b := bounds[c - 1].start;
    StripRightTrims(text[..b], Trimmed);
    var item := Item(text, bounds, k);
    assert bounds[k - 1].end > |rest|;
    EarlierStart(bounds, text, k, c - 1);
    forall i | 0 <= i < |item| ensures Trimmed(item[i]) {
      assert item[i] == text[..b][bounds[k - 1].end + i];
    }
    BlankStrips(item);
  }

  lemma {:induction false} StubsBefore(segs: seq<Segment>, isNumber: string -> bool, m: nat, c: nat)
    requires m <= c <= |segs| && forall k :: m <= k < c ==> segs[k].norm == ""
    ensures Solid(segs, isNumber, c) == Solid(segs, isNumber, m)
  {
    if m < c { StubsBefore(segs, isNumber, m, c - 1); }
  }

  lemma BlankItemsAreStubs(text: string, bounds: seq<Boundary>, norm: string -> string, isNumber: string -> bool,
                           segs: seq<Segment>, c: nat, rest: string)
    requires Scanned(bounds, text) && IgnoresTrailingBlanks(norm) && norm("") == ""
    requires segs == Segments(text, bounds, norm, |bounds| + 1)
    requires 0 < c <= |bounds| && rest == StripRight(text[..bounds[c - 1].start], Trimmed)
    requires Left(bounds, |rest|) < c
    ensures Solid(segs, isNumber, c) == Solid(segs, isNumber, Left(bounds, |rest|) + 1)
  {
    var m := Left(bounds, |rest|);
    forall k | m + 1 <= k < c ensures segs[k].norm == "" {
      BlankItem(text, bounds, norm, c, rest, k);
    }
    StubsBefore(segs, isNumber, m + 1, c);
  }

  lemma StripsAlike(text: string, rest: string, a: nat, b: nat)
    requires a <= b <= |text| && rest == StripRight(text[..b], Trimmed) && |rest| <= a
    ensures rest == StripRight(text[..a], Trimmed)
  {
    StripShorter(text[..b], Trimmed, a);
    assert text[..b][..a] == text[..a];
  }

  lemma RestIsPrefix(text: string, b: nat, rest: string)
    requires b <= |text| && rest == StripRight(text[..b], Trimmed)
    ensures rest <= text
  {
    StripRightTrims(text[..b], Trimmed);
  }

  /** The rest is also what is left of the text in front of the first boundary that goes. */
  lemma RestAtBoundary(text: string, bounds: seq<Boundary>, c: nat, rest: string, m: nat)
    requires Scanned(bounds, text) && 0 < c <= |bounds| && m < c && m == Left(bounds, |rest|)
    requires rest == StripRight(text[..bounds[c - 1].start], Trimmed)
    requires |rest| <= bounds[m].start <= bounds[c - 1].start
    ensures ItemBound(bounds, m + 1) <= |text| && rest == StripRight(text[..ItemBound(bounds, m + 1)], Trimmed)
    ensures ItemStart(bounds, m) <= |rest|
  {
    StripsAlike(text, rest, bounds[m].start, bounds[c - 1].start);
  }

  /** The rest of a text is what is left in front of boundary m, blanks aside; it has m boundaries. */
  ghost predicate RestAt(text: string, bounds: seq<Boundary>, rest: string, m: nat) {
    && Scanned(bounds, text) && m < |bounds| && ItemBound(bounds, m + 1) <= |text|
    && rest == StripRight(text[..ItemBound(bounds, m + 1)], Trimmed)
    && ItemStart(bounds, m) <= |rest| && Scanned(bounds[..m], rest) && rest <= text
  }

  lemma CutLeavesRest(text: string, bounds: seq<Boundary>, c: nat, rest: string)
    requires Scanned(bounds, text) && NonEmpty(bounds) && Anchored(bounds, text)
    requires 0 < c <= |bounds| && rest == StripRight(text[..bounds[c - 1].start], Trimmed)
    ensures Left(bounds, |rest|) < c && RestAt(text, bounds, rest, Left(bounds, |rest|))
  {
    var m := Left(bounds, |rest|);
    RestIsPrefix(text, bounds[c - 1].start, rest);
    LeftIsScanned(text, bounds, rest);
    RestIsShorter(text, bounds[c - 1], rest);
    LeftIsBelow(text, bounds, c, |rest|);
    NoBoundaryInTwo(text, bounds, c, rest, m);
    RestAtBoundary(text, bounds, c, rest, m);
  }

  lemma RestIsShorter(text: string, b: Boundary, rest: string)
    requires b.start < b.end && b.start <= |text| && rest == StripRight(text[..b.start], Trimmed)
    ensures |rest| < b.end
  {
    StripRightTrims(text[..b.start], Trimmed);
  }

  lemma PassOverRest(text: string, bounds: seq<Boundary>, norm: string -> string, isNumber: string -> bool,
                     segs: seq<Segment>, m: nat, c: nat, rest: string)
    requires RestAt(text, bounds, rest, m) && NonEmpty(bounds) && IgnoresTrailingBlanks(norm)
    requires segs == Segments(text, bounds, norm, |bounds| + 1) && c <= |segs|
    requires Solid(segs, isNumber, c) == Solid(segs, isNumber, m + 1)
    ensures Collapsed(rest, bounds[..m], norm, isNumber) == rest <==> !EndsInRun(segs, Solid(segs, isNumber, c))
  {
    RestReadsAlike(text, bounds, norm, m + 1, rest);
    RestPass(rest, bounds[..m], norm, isNumber, segs, m + 1);
  }

  lemma RestOfCut(text: string, bounds: seq<Boundary>, norm: string -> string, isNumber: string -> bool,
                  segs: seq<Segment>, c: nat, rest: string, m: nat)
    requires Left(bounds, |rest|) == m < c && RestAt(text, bounds, rest, m)
    requires NonEmpty(bounds) && IgnoresTrailingBlanks(norm) && norm("") == ""
    requires segs == Segments(text, bounds, norm, |bounds| + 1)
    requires 0 < c <= |bounds| && rest == StripRight(text[..bounds[c - 1].start], Trimmed)
    ensures Collapsed(rest, bounds[..m], norm, isNumber) == rest <==> !EndsInRun(segs, Solid(segs, isNumber, c))
  {
    BlankItemsAreStubs(text, bounds, norm, isNumber, segs, c, rest);
    PassOverRest(text, bounds, norm, isNumber, segs, m, c, rest);
  }

  /**
   * A second pass over what the first one left, with the boundaries that are left, changes nothing
   * exactly when no degenerate run ends the items in front of the first cut, stubs aside.
   */
  lemma SecondPassIffEarlierRun(text: string, bounds: seq<Boundary>, norm: string -> string,
                                isNumber: string -> bool, segs: seq<Segment>, n: nat, c: nat, v: string)
    requires Itemized(text, bounds, norm, isNumber, segs, n) && Degenerate(segs, n, c, v)
    requires NonEmpty(bounds) && Anchored(bounds, text) && IgnoresTrailingBlanks(norm) && norm("") == ""
    ensures var rest := Collapsed(text, bounds, norm, isNumber);
      var again := bounds[..Left(bounds, |rest|)];
      && Scanned(again, rest)
      && (Collapsed(rest, again, norm, isNumber) == rest <==> !EndsInRun(segs, Solid(segs, isNumber, c)))
  {
    var rest := Collapsed(text, bounds, norm, isNumber);
    CollapsedIs(text, bounds, norm, isNumber, segs, n, c, v);
    if c > 0 {
      CutLeavesRest(text, bounds, c, rest);
      RestOfCut(text, bounds, norm, isNumber, segs, c, rest, Left(bounds, |rest|));
    } else {
      LeftIsScanned(text, bounds, rest);
      CollapsedIsPrefix(rest, bounds[..Left(bounds, |rest|)], norm, isNumber);
    }
  }

  lemma CollapsedIsPrefix(text: string, bounds: seq<Boundary>, norm: string -> string, isNumber: string -> bool)
    requires Scanned(bounds, text)
    ensures Collapsed(text, bounds, norm, isNumber) <= text
  {
    var segs := Segments(text, bounds, norm, |bounds| + 1);
    var n := Solid(segs, isNumber, |segs|);
    if n > 0 && CutItem(segs, n).Some? {
      var c := CutItem(segs, n).value;
      BoundFits(text, bounds, c);
      StripRightTrims(text[..ItemBound(bounds, c)], Trimmed);
    }
  }

  /** Ten lines, the first five of one letter and the others of another. */
  function TwoRuns(): string {
    seq(109, i => if i % 11 == 10 then '\n' else if i < 55 then 'a' else 'b')
  }

  function LineBreaks(n: nat): seq<Boundary> {
    seq(n, k requires 0 <= k => Boundary(11 * k + 10, 11 * k + 11))
  }

  function Letters(k: nat): string {
    seq(10, i => if k < 5 then 'a' else 'b')
  }

  lemma LineOfTwoRuns(text: string, n: nat, k: nat)
    requires k <= n <= 9 && text == TwoRuns()[..11 * n + 10]
    ensures Scanned(LineBreaks(n), text) && Item(text, LineBreaks(n), k) == Letters(k)
  {
    var bounds := LineBreaks(n);
    assert ItemStart(bounds, k) == 11 * k && ItemEnd(text, bounds, k) == 11 * k + 10;
    assert Scanned(bounds, text);
    forall i | 0 <= i < 10 ensures text[11 * k + i] == Letters(k)[i] {
      assert (11 * k + i) % 11 == i;
    }
  }

  predicate Never(s: string) {
    false
  }

  function Trim(s: string): string {
    StripRight(s, Trimmed)
  }

  lemma LettersDiffer(k: nat, j: nat)
    ensures k < 5 <= j ==> Letters(k) != Letters(j)
    ensures (k < 5 && j < 5) || (5 <= k && 5 <= j) ==> Letters(k) == Letters(j)
  {
    assert Letters(k)[0] == if k < 5 then 'a' else 'b';
  }

  lemma LinesRead(text: string, n: nat, k: nat)
    requires k <= n <= 9 && text == TwoRuns()[..11 * n + 10] && Scanned(LineBreaks(n), text)
    ensures Segments(text, LineBreaks(n), Trim, n + 1)[k].norm == Letters(k)
  {
    LineOfTwoRuns(text, n, k);
    assert Letters(k)[9] == if k < 5 then 'a' else 'b';
  }

  /** Of lines 0 to n the run from c on is cut. */
  lemma RunOfLines(text: string, n: nat, c: nat)
    requires (n == 9 && c == 5) || (n == 4 && c == 0)
    requires text == TwoRuns()[..11 * n + 10] && Scanned(LineBreaks(n), text)
    ensures ItemBound(LineBreaks(n), c) <= |text|
    ensures Collapsed(text, LineBreaks(n), Trim, Never)
         == StripRight(text[..ItemBound(LineBreaks(n), c)], Trimmed)
  {
    var segs := Segments(text, LineBreaks(n), Trim, n + 1);
    forall k | 0 <= k <= n ensures segs[k].norm == Letters(k) {
      LinesRead(text, n, k);
    }
    LettersDiffer(4, 5);
    forall k | c <= k <= n ensures segs[k].norm == Letters(c) {
      LettersDiffer(c, k);
    }
    assert Degenerate(segs, n + 1, c, Letters(c));
    DegenerateIsCut(segs, n + 1, c, Letters(c));
  }

  lemma FirstPassTakesOneRun()
    ensures Scanned(LineBreaks(9), TwoRuns())
    ensures Collapsed(TwoRuns(), LineBreaks(9), Trim, Never) == TwoRuns()[..54]
  {
    var text := TwoRuns();
    assert text[..109] == text;
    LineOfTwoRuns(text, 9, 0);
    RunOfLines(text, 9, 5);
    assert ItemBound(LineBreaks(9), 5) == 54;
    assert text[..54][53] == 'a';
  }

  lemma SecondPassTakesTheOther()
    ensures Scanned(LineBreaks(4), TwoRuns()[..54])
    ensures Collapsed(TwoRuns()[..54], LineBreaks(4), Trim, Never) == ""
  {
    var text := TwoRuns()[..54];
    LineOfTwoRuns(text, 4, 0);
    RunOfLines(text, 4, 0);
    assert text[..0] == "";
  }

  /** Behind one run another can come to light: the second pass takes the rest of the text. */
  lemma TwoRunsTakeTwoPasses()
    ensures Scanned(LineBreaks(9), TwoRuns()) && Scanned(LineBreaks(4), TwoRuns()[..54])
    ensures LineBreaks(4) == LineBreaks(9)[..4]
    ensures Collapsed(TwoRuns(), LineBreaks(9), Trim, Never) == TwoRuns()[..54]
    ensures Collapsed(TwoRuns()[..54], LineBreaks(4), Trim, Never) == ""
  {
    FirstPassTakesOneRun();
    SecondPassTakesTheOther();
    FirstBreaks();
  }

  lemma FirstBreaks()
    ensures LineBreaks(4) == LineBreaks(9)[..4]
  {
  }

  // ----- the algorithm -----

  method Cut(text: string, bounds: seq<Boundary>, norm: string -> string) returns (segs: seq<Segment>)
    requires Scanned(bounds, text)
    ensures segs == Segments(text, bounds, norm, |bounds| + 1)
  {
    segs := [];
    var prevEnd, prevBound := 0, 0;
    var k := 0;
    while k < |bounds|
      invariant k <= |bounds|
      invariant prevEnd == ItemStart(bounds, k) && prevBound == ItemBound(bounds, k)
      invariant segs == Segments(text, bounds, norm, k)
    {
      var b := bounds[k];
      assert text[prevEnd..b.start] == Item(text, bounds, k);
      segs := segs + [Segment(norm(text[prevEnd..b.start]), prevBound)];
      prevEnd, prevBound := b.end, b.start;
      k := k + 1;
    }
    assert text[prevEnd..] == Item(text, bounds, k);
    segs := segs + [Segment(norm(text[prevEnd..]), prevBound)];
  }

  method WalkBack(segs: seq<Segment>, n: nat, v: string) returns (i: nat)
    requires 0 < n <= |segs| && segs[n - 1].norm == v
    ensures i == RunStart(segs, n, v)
  {
    i := n - 1;
    while i >= 1 && segs[i - 1].norm == v
      invariant i <= n - 1
      invariant RunStart(segs, n, v) == RunStart(segs, i, v)
    {
      i := i - 1;
    }
  }

  method CollapseDegenerateTail(text: string, bounds: seq<Boundary>, norm: string -> string,
                                isNumber: string -> bool)
    returns (rest: string)
    requires Scanned(bounds, text)
    ensures rest == Collapsed(text, bounds, norm, isNumber)
  {
    var segs := Cut(text, bounds, norm);
    ghost var all := segs;
    while segs != [] && Stub(segs[|segs| - 1], isNumber)
      invariant segs <= all
      invariant Solid(all, isNumber, |all|) == Solid(all, isNumber, |segs|)
    {
      segs := segs[..|segs| - 1];
    }
    if segs == [] { return text; }
    var cut := FindCut(segs);
    PrefixIsCutAlike(segs, all);
    if cut.None? { return text; }
    BoundFits(text, bounds, cut.value);
    rest := StripRight(text[..segs[cut.value].bound], Trimmed);
  }

  method FindCut(segs: seq<Segment>) returns (cut: Option<nat>)
    requires segs != []
    ensures cut == CutItem(segs, |segs|)
  {
    var n := |segs|;
    var last := segs[n - 1].norm;
    var i := WalkBack(segs, n, last);
    if n - i >= MIN_RUN && |last| >= MIN_LENGTH { return Some(i); }
    if n >= 2 {
      var canon := segs[n - 2].norm;
      if canon != "" && last <= canon {
        var j := WalkBack(segs, n - 1, canon);
        if n - j >= MIN_RUN && |canon| >= MIN_LENGTH { return Some(j); }
      }
    }
    cut := None;
  }

  lemma {:induction false} RunOfPrefix(segs: seq<Segment>, all: seq<Segment>, n: nat, v: string)
    requires n <= |segs| && segs <= all
    ensures RunStart(segs, n, v) == RunStart(all, n, v)
  {
    if n > 0 { RunOfPrefix(segs, all, n - 1, v); }
  }

  lemma PrefixIsCutAlike(segs: seq<Segment>, all: seq<Segment>)
    requires segs != [] && segs <= all
    ensures CutItem(segs, |segs|) == CutItem(all, |segs|)
  {
    var n := |segs|;
    RunOfPrefix(segs, all, n, segs[n - 1].norm);
    if n >= 2 { RunOfPrefix(segs, all, n - 1, segs[n - 2].norm); }
  }
}
