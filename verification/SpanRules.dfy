/** docreader/splitter/splitter.py: which matches become protected spans, said of the matches alone. */
module SpanRules {
  import opened ProtectedSpans
  import opened Text
  import Sorting

  /** Short enough, behind the end of all that begin earlier, and the longest of those that begin with it. */
  ghost predicate Protected(matches: seq<Match>, m: Match, size: int) {
    && m in matches && m.end - m.start < size
    && forall q :: q in matches ==>
         (q.start < m.start ==> q.end <= m.start) && (q.start == m.start ==> q.end <= m.end)
  }

  lemma OrderedIs(matches: seq<Match>, i: nat, j: nat)
    requires i < j < |Ordered(matches)|
    ensures var a, b := Ordered(matches)[i], Ordered(matches)[j];
      a.start < b.start || (a.start == b.start && a.end >= b.end)
  {
    OrderedKeeps(matches);
    assert Before(Ordered(matches)[i], Ordered(matches)[j]);
  }

  lemma ClearIsProtected(matches: seq<Match>, i: nat, size: int)
    requires i < |Ordered(matches)| && ClearOf(Ordered(matches), i, -1, size)
    requires Ordered(matches)[i].start <= Ordered(matches)[i].end
    ensures Protected(matches, Ordered(matches)[i], size)
  {
    var ms := Ordered(matches);
    OrderedKeeps(matches);
    var m := ms[i];
    forall q | q in matches
      ensures (q.start < m.start ==> q.end <= m.start) && (q.start == m.start ==> q.end <= m.end)
    {
      assert q in ms;
      var j :| 0 <= j < |ms| && ms[j] == q;
      if i < j { OrderedIs(matches, i, j); }
    }
  }

  lemma {:induction false} FirstAt(ms: seq<Match>, m: Match) returns (i: nat)
    requires m in ms
    ensures i < |ms| && ms[i] == m && forall j :: 0 <= j < i ==> ms[j] != m
  {
    if ms[0] == m {
      i := 0;
    } else {
      var k := FirstAt(ms[1..], m);
      i := k + 1;
      forall j | 0 <= j < i ensures ms[j] != m {
        if j > 0 { assert ms[1..][j - 1] == ms[j]; }
      }
    }
  }

  lemma ProtectedIsClear(matches: seq<Match>, m: Match, size: int) returns (i: nat)
    requires Protected(matches, m, size)
    ensures i < |Ordered(matches)| && Ordered(matches)[i] == m && ClearOf(Ordered(matches), i, -1, size)
  {
    var ms := Ordered(matches);
    OrderedKeeps(matches);
    i := FirstAt(ms, m);
    forall j | 0 <= j < i ensures ms[j].end <= ms[i].start {
      OrderedIs(matches, j, i);
      assert ms[j] in matches;
    }
  }

  /** A span is kept exactly if it is that of a match that is to be protected. */
  lemma KeptIffProtected(text: string, matches: seq<Match>, size: int, g: Guard)
    requires Within(Ordered(matches), text)
    ensures g in Protect(text, matches, size) <==>
              exists m :: Protected(matches, m, size) && m.start <= m.end <= |text|
                          && g == Guard(m.start, text[m.start..m.end])
  {
    var ms := Ordered(matches);
    KeptExactly(text, ms, -1, size, g);
    if g in Protect(text, matches, size) {
      var i :| 0 <= i < |ms| && ClearOf(ms, i, -1, size) && g == Guard(ms[i].start, text[ms[i].start..ms[i].end]);
      ClearIsProtected(matches, i, size);
    }
    if exists m :: Protected(matches, m, size) && m.start <= m.end <= |text|
                   && g == Guard(m.start, text[m.start..m.end]) {
      var m :| Protected(matches, m, size) && m.start <= m.end <= |text|
               && g == Guard(m.start, text[m.start..m.end]);
      var i := ProtectedIsClear(matches, m, size);
    }
  }
}
