/**
 * The units of a document, their ids, and how they share paragraphs. A paragraph is one unit, or the
 * two sides of a paragraph split in columns, or the lines of one that is read line by line.
 */
module Units {
  import opened Decimals
  import opened Options
  import opened Segments

  /** Where a unit stands in its paragraph: all of it, one of two columns, or one line. */
  datatype Place = Whole(zone: Zone) | Side(left: bool) | Line(zone: Zone, k: nat)

  datatype Unit = Unit(para: nat, place: Place)

  function ZoneOf(u: Unit): Zone {
    match u.place
    case Whole(zone) => zone
    case Side(left) => if left then Left else Right
    case Line(zone, _) => zone
  }

  function LineOf(u: Unit): Option<nat> {
    if u.place.Line? then Some(u.place.k) else None
  }

  // ----- ids: "12", "12L", "12R", "12.1" -----

  function Id(u: Unit): string {
    match u.place
    case Whole(_) => Digits(u.para)
    case Side(left) => Digits(u.para) + (if left then "L" else "R")
    case Line(_, k) => Digits(u.para) + ['.'] + Digits(k)
  }

  predicate Number(s: string) {
    s != "" && forall i :: 0 <= i < |s| ==> IsDigit(s[i])
  }

  /** The line an id names; None for the id of any other unit. */
  function LineOfId(id: string): Option<nat> {
    if '.' !in id then None
    else
      var n := |Head(id, '.')| + 1;
      var rest := if n <= |id| then id[n..] else "";
      if Number(rest) then Some(Value(rest)) else None
  }

  lemma NoDotInDigits(n: nat)
    ensures '.' !in Digits(n)
  {
    var s := Digits(n);
    forall i | 0 <= i < |s| ensures s[i] != '.' {
      assert IsDigit(s[i]);
    }
  }

  /** An id names the line its unit is. */
  lemma LineIsReadFromId(u: Unit)
    ensures LineOfId(Id(u)) == LineOf(u)
  {
    NoDotInDigits(u.para);
    if u.place.Line? {
      var a, x := Digits(u.para), Digits(u.place.k);
      assert (a + ['.'] + x)[|a|] == '.';
      HeadIs(a, '.', x);
      assert (a + ['.'] + x)[|a| + 1..] == x;
      ValueOfDigits(u.place.k);
    }
  }

  /** The leading number of an id. */
  function Lead(s: string): string {
    if s == "" || !IsDigit(s[0]) then "" else [s[0]] + Lead(s[1..])
  }

  lemma {:induction false} LeadIs(a: string, x: string)
    requires forall i :: 0 <= i < |a| ==> IsDigit(a[i])
    requires x == "" || !IsDigit(x[0])
    ensures Lead(a + x) == a
  {
    if a == "" {
      assert a + x == x;
    } else {
      assert (a + x)[1..] == a[1..] + x;
      LeadIs(a[1..], x);
    }
  }

  function Rest(u: Unit): string {
    match u.place
    case Whole(_) => ""
    case Side(left) => if left then "L" else "R"
    case Line(_, k) => ['.'] + Digits(k)
  }

  /** Two units with one id are the same paragraph and, but for the zone, the same place in it. */
  lemma IdsTellUnitsApart(u: Unit, v: Unit)
    requires Id(u) == Id(v)
    ensures u.para == v.para && LineOf(u) == LineOf(v)
    ensures u.place.Side? <==> v.place.Side?
    ensures u.place.Side? ==> u.place == v.place
  {
    var a, b, x, y := Digits(u.para), Digits(v.para), Rest(u), Rest(v);
    assert Id(u) == a + x && Id(v) == b + y;
    LeadIs(a, x);
    LeadIs(b, y);
    ValueOfDigits(u.para);
    ValueOfDigits(v.para);
    assert (a + x)[|a|..] == x && (b + y)[|b|..] == y;
    LineIsReadFromId(u);
    LineIsReadFromId(v);
  }

  // ----- the units of a document -----

  /**
   * A paragraph, with its text cut at the soft line breaks; in two columns when tabs split it into a
   * left and a right text.
   */
  datatype Para = Para(columns: bool, zone: Zone, text: string, lines: seq<string>, left: string, right: string)

  /**
   * What the segmenter decides with its patterns: which texts are more than blanks and ruled lines,
   * and which paragraphs are to be read line by line.
   */
  datatype Patterns = Patterns(content: string -> bool, byLine: Para -> bool)

  function ContentLines(lines: seq<string>, n: nat, pt: Patterns): (ks: seq<nat>)
    requires n <= |lines|
    ensures forall i :: 0 <= i < |ks| ==> ks[i] < n
    ensures forall i, j :: 0 <= i < j < |ks| ==> ks[i] < ks[j]
  {
    if n == 0 then []
    else if pt.content(lines[n - 1]) then ContentLines(lines, n - 1, pt) + [n - 1]
    else ContentLines(lines, n - 1, pt)
  }

  /** The lines of a paragraph that is read line by line. */
  function LineSplit(p: Para, pt: Patterns): Option<seq<nat>> {
    var content := ContentLines(p.lines, |p.lines|, pt);
    if p.columns || |p.lines| == 1 || |content| < 2 || !pt.byLine(p) then None else Some(content)
  }

  function LineUnits(para: nat, zone: Zone, ks: seq<nat>): seq<Unit> {
    seq(|ks|, i requires 0 <= i < |ks| => Unit(para, Line(zone, ks[i])))
  }

  function UnitsOf(p: Para, para: nat, pt: Patterns): seq<Unit> {
    var split := LineSplit(p, pt);
    if split.Some? then LineUnits(para, p.zone, split.value)
    else if p.columns then
      (if p.left != "" && pt.content(p.left) then [Unit(para, Side(true))] else [])
      + (if p.right != "" && pt.content(p.right) then [Unit(para, Side(false))] else [])
    else if pt.content(p.text) then [Unit(para, Whole(p.zone))]
    else []
  }

  function Elements(paras: seq<Para>, n: nat, pt: Patterns): seq<Unit>
    requires n <= |paras|
  {
    if n == 0 then [] else Elements(paras, n - 1, pt) + UnitsOf(paras[n - 1], n - 1, pt)
  }

  /** Two units may share a paragraph only as different lines or as its two columns. */
  predicate Siblings(a: Place, b: Place) {
    || (a.Line? && b.Line? && a.zone == b.zone && a.k != b.k)
    || (a.Side? && b.Side? && a != b)
  }

  ghost predicate Coherent(units: seq<Unit>) {
    forall i, j :: 0 <= i < |units| && 0 <= j < |units| && i != j && units[i].para == units[j].para
                   ==> Siblings(units[i].place, units[j].place)
  }

  predicate Within(units: seq<Unit>, lo: nat, hi: nat) {
    forall i :: 0 <= i < |units| ==> lo <= units[i].para < hi
  }

  lemma UnitsOfOneParagraph(p: Para, para: nat, pt: Patterns)
    ensures Coherent(UnitsOf(p, para, pt))
    ensures Within(UnitsOf(p, para, pt), para, para + 1)
  {
    var split := LineSplit(p, pt);
    if split.Some? {
      var units := LineUnits(para, p.zone, split.value);
      forall i, j | 0 <= i < |units| && 0 <= j < |units| && i != j
        ensures Siblings(units[i].place, units[j].place)
      {
        assert if i < j then split.value[i] < split.value[j] else split.value[j] < split.value[i];
      }
    }
  }

  lemma ParagraphAdds(before: seq<Unit>, p: Para, para: nat, pt: Patterns)
    requires Coherent(before) && Within(before, 0, para)
    ensures Coherent(before + UnitsOf(p, para, pt)) && Within(before + UnitsOf(p, para, pt), 0, para + 1)
  {
    UnitsOfOneParagraph(p, para, pt);
    CoherentConcat(before, UnitsOf(p, para, pt), para);
  }

  predicate Keeps(holds: (seq<Unit>, nat) -> bool, before: seq<Unit>, k: nat, p: Para, pt: Patterns) {
    holds(before, k) ==> holds(before + UnitsOf(p, k, pt), k + 1)
  }

  lemma {:induction false} ElementsInduction(holds: (seq<Unit>, nat) -> bool, paras: seq<Para>, n: nat, pt: Patterns)
    requires n <= |paras|
    requires holds([], 0)
    requires forall before, k: nat, p :: Keeps(holds, before, k, p, pt)
    ensures holds(Elements(paras, n, pt), n)
  {
    if n > 0 {
      ElementsInduction(holds, paras, n - 1, pt);
      assert Keeps(holds, Elements(paras, n - 1, pt), n - 1, paras[n - 1], pt);
    }
  }

  lemma ElementsAreCoherent(paras: seq<Para>, n: nat, pt: Patterns)
    requires n <= |paras|
    ensures Coherent(Elements(paras, n, pt)) && Within(Elements(paras, n, pt), 0, n)
  {
    var holds := (els: seq<Unit>, k: nat) => Coherent(els) && Within(els, 0, k);
    forall before, k: nat, p ensures Keeps(holds, before, k, p, pt) {
      if holds(before, k) { ParagraphAdds(before, p, k, pt); }
    }
    var none: seq<Unit> := [];
    assert Coherent(none) && Within(none, 0, 0);
    assert holds(none, 0);
    ElementsInduction(holds, paras, n, pt);
  }

  lemma CoherentConcat(a: seq<Unit>, b: seq<Unit>, para: nat)
    requires Coherent(a) && Coherent(b)
    requires Within(a, 0, para) && Within(b, para, para + 1)
    ensures Coherent(a + b) && Within(a + b, 0, para + 1)
  {
    var c := a + b;
    forall i, j | 0 <= i < |c| && 0 <= j < |c| && i != j
      ensures c[i].para == c[j].para ==> Siblings(c[i].place, c[j].place)
    {
      if i < |a| && j < |a| {
        assert c[i] == a[i] && c[j] == a[j];
      } else if i >= |a| && j >= |a| {
        assert c[i] == b[i - |a|] && c[j] == b[j - |a|];
      } else {
        assert c[i].para != c[j].para;
      }
    }
  }

  /** No two units of a document share an id, so a reply addresses each of them. */
  lemma IdsAreDistinct(units: seq<Unit>, i: nat, j: nat)
    requires Coherent(units) && i < |units| && j < |units| && i != j
    ensures Id(units[i]) != Id(units[j])
  {
    if Id(units[i]) == Id(units[j]) { IdsTellUnitsApart(units[i], units[j]); }
  }

  method AppendLines(els0: seq<Unit>, index: nat, zone: Zone, ks: seq<nat>) returns (els: seq<Unit>)
    ensures els == els0 + LineUnits(index, zone, ks)
  {
    els := els0;
    var i := 0;
    while i < |ks|
      invariant i <= |ks|
      invariant els == els0 + LineUnits(index, zone, ks[..i])
    {
      els := els + [Unit(index, Line(zone, ks[i]))];
      i := i + 1;
    }
    assert ks[..i] == ks;
  }

  method AppendUnits(els0: seq<Unit>, paras: seq<Para>, index: nat, pt: Patterns) returns (els: seq<Unit>)
    requires index < |paras| && els0 == Elements(paras, index, pt)
    ensures els == Elements(paras, index + 1, pt)
  {
    els := els0;
    var p := paras[index];
    var split := LineSplit(p, pt);
    if split.Some? {
      els := AppendLines(els, index, p.zone, split.value);
    } else if p.columns {
      if p.left != "" && pt.content(p.left) { els := els + [Unit(index, Side(true))]; }
      if p.right != "" && pt.content(p.right) { els := els + [Unit(index, Side(false))]; }
    } else if pt.content(p.text) {
      els := els + [Unit(index, Whole(p.zone))];
    }
  }

  method BuildElements(paras: seq<Para>, pt: Patterns) returns (els: seq<Unit>)
    ensures els == Elements(paras, |paras|, pt)
  {
    els := [];
    var index := 0;
    while index < |paras|
      invariant index <= |paras|
      invariant els == Elements(paras, index, pt)
    {
      els := AppendUnits(els, paras, index, pt);
      index := index + 1;
    }
  }
}
