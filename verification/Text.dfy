/** The Python string operations the modelled files share. */
module Text {

  /** Characters `str.strip()` removes and `\s` matches. */
  predicate IsSpace(c: char) {
    || '\t' <= c <= '\r' || '\U{001C}' <= c <= '\U{0020}'
    || c == '\U{0085}' || c == '\U{00A0}' || c == '\U{1680}'
    || '\U{2000}' <= c <= '\U{200A}' || c == '\U{2028}' || c == '\U{2029}'
    || c == '\U{202F}' || c == '\U{205F}' || c == '\U{3000}'
  }

  /** `s.lstrip(chars)`, the characters given by a test. */
  function StripLeft(s: string, drop: char -> bool): string {
    if s != "" && drop(s[0]) then StripLeft(s[1..], drop) else s
  }

  /** `s.rstrip(chars)`. */
  function StripRight(s: string, drop: char -> bool): string {
    if s != "" && drop(s[|s| - 1]) then StripRight(s[..|s| - 1], drop) else s
  }

  function Strip(s: string): string {
    StripRight(StripLeft(s, IsSpace), IsSpace)
  }

  /** `s[k:]` for an index that is not negative. */
  function From(s: string, k: nat): string {
    if k <= |s| then s[k..] else ""
  }

  /** `s[:k]` for an index that is not negative. */
  function Upto(s: string, k: nat): string {
    if k <= |s| then s[..k] else s
  }

  predicate EndsWith(s: string, suffix: string) {
    |suffix| <= |s| && s[|s| - |suffix|..] == suffix
  }

  predicate At(s: string, sub: string, i: nat) {
    i + |sub| <= |s| && s[i..i + |sub|] == sub
  }

  /** `sub in s`. */
  predicate Contains(s: string, sub: string) {
    exists i :: 0 <= i <= |s| && At(s, sub, i)
  }

  /** Where `sub` first occurs at or after `from`; |s| + 1 when it does not. */
  function Find(s: string, sub: string, from: nat): (i: nat)
    requires from <= |s| + 1
    ensures from <= i <= |s| + 1
    decreases |s| + 1 - from
  {
    if from > |s| || At(s, sub, from) then from else Find(s, sub, from + 1)
  }

  function Concat(pieces: seq<string>): string {
    if pieces == [] then "" else pieces[0] + Concat(pieces[1..])
  }

  /** `sep.join(parts)`. */
  function Join(parts: seq<string>, sep: string): string {
    if parts == [] then ""
    else if |parts| == 1 then parts[0]
    else parts[0] + sep + Join(parts[1..], sep)
  }

  /** `s.split(sep)` for a separator that is not empty. */
  function SplitOn(s: string, sep: string): (parts: seq<string>)
    requires sep != ""
    ensures parts != []
    decreases |s|
  {
    var i := Find(s, sep, 0);
    if i + |sep| > |s| then [s] else [s[..i]] + SplitOn(s[i + |sep|..], sep)
  }

  function Lines(s: string): (lines: seq<string>)
    ensures lines != []
  {
    SplitOn(s, "\n")
  }

  lemma {:induction false} FindFinds(s: string, sub: string, from: nat)
    requires from <= |s| + 1
    ensures var i := Find(s, sub, from);
      && (i <= |s| ==> At(s, sub, i))
      && (forall k :: from <= k < i ==> !At(s, sub, k))
    decreases |s| + 1 - from
  {
    if from <= |s| && !At(s, sub, from) {
      FindFinds(s, sub, from + 1);
    }
  }

  /** Splitting and joining on the same separator gives the text back. */
  lemma {:induction false} JoinOfSplit(s: string, sep: string)
    requires sep != ""
    ensures Join(SplitOn(s, sep), sep) == s
    decreases |s|
  {
    FindFinds(s, sep, 0);
    var i := Find(s, sep, 0);
    if i + |sep| <= |s| {
      JoinOfSplit(s[i + |sep|..], sep);
      assert s == s[..i] + sep + s[i + |sep|..];
    }
  }

  lemma {:induction false} ConcatAppend(a: seq<string>, b: seq<string>)
    ensures Concat(a + b) == Concat(a) + Concat(b)
  {
    if a == [] {
      assert a + b == b;
    } else {
      assert (a + b)[1..] == a[1..] + b;
      ConcatAppend(a[1..], b);
    }
  }

  lemma Associative<T>(a: seq<T>, b: seq<T>, c: seq<T>)
    ensures a + (b + c) == a + b + c
  {
  }

  lemma ConcatSingle(p: string)
    ensures Concat([p]) == p
  {
    assert Concat([p][1..]) == "";
  }
}
