/** Which units a document has, paragraph by paragraph, and in which order. */
module UnitRules {
  import opened Units

  /** A paragraph is read line by line: no columns, several lines, two of them with content, and one says so. */
  ghost predicate ByLine(p: Para, pt: Patterns) {
    && !p.columns && |p.lines| != 1 && pt.byLine(p)
    && exists i, j :: 0 <= i < j < |p.lines| && pt.content(p.lines[i]) && pt.content(p.lines[j])
  }

  /** The units of a paragraph, place by place. */
  ghost predicate HasUnit(p: Para, place: Place, pt: Patterns) {
    match place
    case Line(zone, k) => ByLine(p, pt) && zone == p.zone && k < |p.lines| && pt.content(p.lines[k])
    case Side(left) =>
      p.columns && (if left then p.left != "" && pt.content(p.left) else p.right != "" && pt.content(p.right))
    case Whole(zone) => !p.columns && !ByLine(p, pt) && zone == p.zone && pt.content(p.text)
  }

  lemma {:induction false} ContentLinesAre(lines: seq<string>, n: nat, pt: Patterns, k: nat)
    requires n <= |lines|
    ensures k in ContentLines(lines, n, pt) <==> k < n && pt.content(lines[k])
  {
    if n > 0 { ContentLinesAre(lines, n - 1, pt, k); }
  }

  lemma TwoContentLines(lines: seq<string>, pt: Patterns)
    ensures |ContentLines(lines, |lines|, pt)| >= 2 <==>
              exists i, j :: 0 <= i < j < |lines| && pt.content(lines[i]) && pt.content(lines[j])
  {
    var ks := ContentLines(lines, |lines|, pt);
    forall k: nat ensures k in ks <==> k < |lines| && pt.content(lines[k]) {
      ContentLinesAre(lines, |lines|, pt, k);
    }
    if |ks| >= 2 {
      assert ks[0] in ks && ks[1] in ks;
    }
    if exists i, j :: 0 <= i < j < |lines| && pt.content(lines[i]) && pt.content(lines[j]) {
      var i, j :| 0 <= i < j < |lines| && pt.content(lines[i]) && pt.content(lines[j]);
      assert i in ks && j in ks;
    }
  }

  lemma UnitsOfAre(p: Para, para: nat, pt: Patterns, u: Unit)
    ensures u in UnitsOf(p, para, pt) <==> u.para == para && HasUnit(p, u.place, pt)
  {
    TwoContentLines(p.lines, pt);
    var split := LineSplit(p, pt);
    if split.Some? {
      if u.place.Line? { ContentLinesAre(p.lines, |p.lines|, pt, u.place.k); }
      if u in LineUnits(para, p.zone, split.value) {
        var i :| 0 <= i < |split.value| && LineUnits(para, p.zone, split.value)[i] == u;
        assert split.value[i] in split.value;
      }
      if u.para == para && u.place.Line? && u.place.zone == p.zone && u.place.k in split.value {
        var i :| 0 <= i < |split.value| && split.value[i] == u.place.k;
        assert LineUnits(para, p.zone, split.value)[i] == u;
      }
    }
  }

  lemma InConcat(a: seq<Unit>, b: seq<Unit>, u: Unit)
    ensures u in a + b <==> u in a || u in b
  {
  }

  /** Every unit of every paragraph is there, and no other. */
  lemma {:induction false} ElementsAreExact(paras: seq<Para>, n: nat, pt: Patterns, u: Unit)
    requires n <= |paras|
    ensures u in Elements(paras, n, pt) <==> u.para < n && HasUnit(paras[u.para], u.place, pt)
  {
    if n > 0 {
      ElementsAreExact(paras, n - 1, pt, u);
      OneMoreParagraph(Elements(paras, n - 1, pt), paras, n - 1, pt, u);
    }
  }

  lemma OneMoreParagraph(before: seq<Unit>, paras: seq<Para>, n: nat, pt: Patterns, u: Unit)
    requires n < |paras|
    requires u in before <==> u.para < n && HasUnit(paras[u.para], u.place, pt)
    ensures u in before + UnitsOf(paras[n], n, pt) <==> u.para < n + 1 && HasUnit(paras[u.para], u.place, pt)
  {
    UnitsOfAre(paras[n], n, pt, u);
    InConcat(before, UnitsOf(paras[n], n, pt), u);
  }

  /** Document order: by paragraph, in it by line, the left column before the right. */
  predicate Precedes(u: Unit, v: Unit) {
    || u.para < v.para
    || (u.para == v.para && u.place.Line? && v.place.Line? && u.place.k < v.place.k)
    || (u.para == v.para && u.place == Side(true) && v.place == Side(false))
  }

  ghost predicate InOrder(units: seq<Unit>) {
    forall i, j :: 0 <= i < j < |units| ==> Precedes(units[i], units[j])
  }

  lemma OrderedConcat(a: seq<Unit>, b: seq<Unit>, para: nat)
    requires InOrder(a) && InOrder(b) && Within(a, 0, para) && Within(b, para, para + 1)
    ensures InOrder(a + b)
  {
    var c := a + b;
    forall i, j | 0 <= i < j < |c| ensures Precedes(c[i], c[j]) {
      if j < |a| {
        assert c[i] == a[i] && c[j] == a[j];
      } else if i >= |a| {
        assert c[i] == b[i - |a|] && c[j] == b[j - |a|];
      } else {
        assert c[i] == a[i] && c[j] == b[j - |a|];
      }
    }
  }

  lemma UnitsOfAreOrdered(p: Para, para: nat, pt: Patterns)
    ensures InOrder(UnitsOf(p, para, pt))
  {
    var split := LineSplit(p, pt);
    if split.Some? {
      var units := LineUnits(para, p.zone, split.value);
      forall i, j | 0 <= i < j < |units| ensures Precedes(units[i], units[j]) {
        assert split.value[i] < split.value[j];
      }
    }
  }

  lemma ParagraphStaysOrdered(before: seq<Unit>, p: Para, para: nat, pt: Patterns)
    requires InOrder(before) && Within(before, 0, para)
    ensures InOrder(before + UnitsOf(p, para, pt)) && Within(before + UnitsOf(p, para, pt), 0, para + 1)
  {
    UnitsOfAreOrdered(p, para, pt);
    UnitsOfOneParagraph(p, para, pt);
    OrderedConcat(before, UnitsOf(p, para, pt), para);
  }

  /** The units come in the order of the document. */
  lemma ElementsAreOrdered(paras: seq<Para>, n: nat, pt: Patterns)
    requires n <= |paras|
    ensures InOrder(Elements(paras, n, pt))
  {
    var holds := (els: seq<Unit>, k: nat) => InOrder(els) && Within(els, 0, k);
    forall before, k: nat, p ensures Keeps(holds, before, k, p, pt) {
      if holds(before, k) { ParagraphStaysOrdered(before, p, k, pt); }
    }
    var none: seq<Unit> := [];
    assert InOrder(none) && Within(none, 0, 0);
    assert holds(none, 0);
    ElementsInduction(holds, paras, n, pt);
  }
}
