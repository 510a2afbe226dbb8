/** Python's `sorted` with a key: a stable sort. */
module Sorting {

  ghost predicate TotalPreorder<T(!new)>(le: (T, T) -> bool) {
    && (forall x, y :: le(x, y) || le(y, x))
    && (forall x, y, z :: le(x, y) && le(y, z) ==> le(x, z))
  }

  ghost predicate Sorted<T>(le: (T, T) -> bool, s: seq<T>) {
    forall i, j :: 0 <= i < j < |s| ==> le(s[i], s[j])
  }

  /** Inserts x after every element not above it, so equal keys keep their order. */
  function Insert<T>(le: (T, T) -> bool, s: seq<T>, x: T): (r: seq<T>)
    ensures multiset(r) == multiset(s) + multiset{x}
  {
    if s == [] then [x]
    else
      var n := |s| - 1;
      assert s == s[..n] + [s[n]];
      if le(s[n], x) then s + [x] else Insert(le, s[..n], x) + [s[n]]
  }

  function Sort<T>(le: (T, T) -> bool, s: seq<T>): (r: seq<T>)
    ensures multiset(r) == multiset(s)
  {
    if s == [] then []
    else
      var n := |s| - 1;
      assert s == s[..n] + [s[n]];
      Insert(le, Sort(le, s[..n]), s[n])
  }

  lemma SameElements<T>(a: seq<T>, b: seq<T>)
    requires multiset(a) == multiset(b)
    ensures |a| == |b|
    ensures forall x :: x in a <==> x in b
  {
    assert |multiset(a)| == |a| && |multiset(b)| == |b|;
    forall x ensures x in a <==> x in b {
      assert x in a <==> x in multiset(a);
      assert x in b <==> x in multiset(b);
    }
  }

  lemma {:induction false} InsertSorts<T(!new)>(le: (T, T) -> bool, s: seq<T>, x: T)
    requires TotalPreorder(le) && Sorted(le, s)
    ensures Sorted(le, Insert(le, s, x))
  {
    if s != [] {
      var n := |s| - 1;
      if le(s[n], x) {
        forall i | 0 <= i < n ensures le(s[i], x) {
          assert le(s[i], s[n]);
        }
      } else {
        InsertSorts(le, s[..n], x);
        var r := Insert(le, s[..n], x);
        SameElements(r, s[..n] + [x]);
        assert le(x, s[n]);
        forall i | 0 <= i < |r| ensures le(r[i], s[n]) {
          assert r[i] in s[..n] + [x];
        }
      }
    }
  }

  lemma {:induction false} SortSorts<T(!new)>(le: (T, T) -> bool, s: seq<T>)
    requires TotalPreorder(le)
    ensures Sorted(le, Sort(le, s))
    ensures |Sort(le, s)| == |s| && (forall x :: x in Sort(le, s) <==> x in s)
  {
    if s != [] {
      SortSorts(le, s[..|s| - 1]);
      InsertSorts(le, Sort(le, s[..|s| - 1]), s[|s| - 1]);
    }
    SameElements(Sort(le, s), s);
  }

  lemma {:induction false} SortIsIdentity<T>(le: (T, T) -> bool, s: seq<T>)
    requires Sorted(le, s)
    ensures Sort(le, s) == s
  {
    if s != [] {
      var n := |s| - 1;
      SortIsIdentity(le, s[..n]);
      assert s == s[..n] + [s[n]];
      if n > 0 {
        assert le(s[n - 1], s[n]);
      }
    }
  }

  /** An order of the elements of a set, which need not be one of anything else. */
  ghost predicate PreorderOn<T(!new)>(le: (T, T) -> bool, all: set<T>) {
    && (forall x, y :: x in all && y in all ==> le(x, y) || le(y, x))
    && (forall x, y, z :: x in all && y in all && z in all && le(x, y) && le(y, z) ==> le(x, z))
  }

  ghost predicate Among<T>(s: seq<T>, all: set<T>) {
    forall i :: 0 <= i < |s| ==> s[i] in all
  }

  lemma InsertStaysAmong<T(!new)>(le: (T, T) -> bool, s: seq<T>, x: T, all: set<T>)
    requires Among(s, all) && x in all
    ensures Among(Insert(le, s, x), all)
  {
    var r := Insert(le, s, x);
    SameElements(r, s + [x]);
    forall i | 0 <= i < |r| ensures r[i] in all {
      assert r[i] in s + [x];
    }
  }

  lemma {:induction false} InsertSortsOn<T(!new)>(le: (T, T) -> bool, s: seq<T>, x: T, all: set<T>)
    requires PreorderOn(le, all) && Among(s, all) && x in all && Sorted(le, s)
    ensures Sorted(le, Insert(le, s, x))
  {
    if s != [] {
      var n := |s| - 1;
      if le(s[n], x) {
        forall i | 0 <= i < n ensures le(s[i], x) {
          assert le(s[i], s[n]);
        }
      } else {
        InsertSortsOn(le, s[..n], x, all);
        AllBelow(le, s[..n], x, s[n], all);
      }
    }
  }

  /** What is inserted before y stays below it. */
  lemma AllBelow<T(!new)>(le: (T, T) -> bool, s: seq<T>, x: T, y: T, all: set<T>)
    requires PreorderOn(le, all) && x in all && y in all && !le(y, x)
    requires forall i :: 0 <= i < |s| ==> le(s[i], y)
    ensures forall i :: 0 <= i < |Insert(le, s, x)| ==> le(Insert(le, s, x)[i], y)
  {
    var r := Insert(le, s, x);
    SameElements(r, s + [x]);
    forall i | 0 <= i < |r| ensures le(r[i], y) {
      assert r[i] in s + [x];
    }
  }

  lemma {:induction false} SortSortsOn<T(!new)>(le: (T, T) -> bool, s: seq<T>, all: set<T>)
    requires PreorderOn(le, all) && Among(s, all)
    ensures Sorted(le, Sort(le, s)) && Among(Sort(le, s), all)
  {
    if s != [] {
      SortSortsOn(le, s[..|s| - 1], all);
      InsertSortsOn(le, Sort(le, s[..|s| - 1]), s[|s| - 1], all);
      InsertStaysAmong(le, Sort(le, s[..|s| - 1]), s[|s| - 1], all);
    }
  }
}
