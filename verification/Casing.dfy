/**
 * Upper, lower and folded case of a word, character by character. The three
 * tables are arbitrary apart from what `Lawful` asks of them.
 */
module Casing {

  datatype Case = Case(up: char -> string, low: char -> string, fold: char -> string)

  predicate IsMarkChar(c: char) {
    c == ',' || c == '.' || c == ':' || c == '?'
  }

  /** A token that is one of the punctuation marks. */
  predicate IsMark(t: string) {
    |t| == 1 && IsMarkChar(t[0])
  }

  function MapChars(f: char -> string, s: string): string {
    if s == "" then "" else f(s[0]) + MapChars(f, s[1..])
  }

  function Fold(k: Case, s: string): string {
    MapChars(k.fold, s)
  }

  /**
   * Changing case keeps the folded word, never empties a character and never
   * makes a mark of anything else.
   */
  ghost predicate Lawful(k: Case) {
    forall c: char ::
      && k.up(c) != "" && k.low(c) != ""
      && Fold(k, k.up(c)) == k.fold(c) && Fold(k, k.low(c)) == k.fold(c)
      && (if IsMarkChar(c) then k.up(c) == [c] && k.low(c) == [c]
          else !IsMark(k.up(c)) && !IsMark(k.low(c)))
  }

  lemma {:induction false} MapAppends(f: char -> string, a: string, b: string)
    ensures MapChars(f, a + b) == MapChars(f, a) + MapChars(f, b)
  {
    if a == "" {
      assert a + b == b;
    } else {
      assert (a + b)[1..] == a[1..] + b;
      MapAppends(f, a[1..], b);
    }
  }

  /** A change of case table that `Lawful` covers. */
  ghost predicate Changes(k: Case, f: char -> string) {
    Lawful(k) && (f == k.up || f == k.low)
  }

  lemma {:induction false} MapFolds(k: Case, f: char -> string, s: string)
    requires Changes(k, f)
    ensures Fold(k, MapChars(f, s)) == Fold(k, s)
    ensures |MapChars(f, s)| >= |s|
    ensures |s| <= 1 ==> (IsMark(MapChars(f, s)) <==> IsMark(s))
  {
    if s != "" {
      MapFolds(k, f, s[1..]);
      MapAppends(k.fold, f(s[0]), MapChars(f, s[1..]));
      if |s| == 1 {
        assert MapChars(f, s) == f(s[0]) + "";
      }
    }
  }

  // ----- the edits of one label -----

  datatype Mark = Comma | Period | Colon | Question {
    function Text(): (t: string)
      ensures IsMark(t)
    {
      match this
      case Comma => ","
      case Period => "."
      case Colon => ":"
      case Question => "?"
    }
  }

  /** The labels that edit a word; `Other` stands for those that do not. */
  datatype Label = Keep | Capital | Upper | Lower | CapitalSecond | UpperButLast | Append(mark: Mark) | Other

  function Recase(k: Case, tok: string, lab: Label, sentenceStart: bool): string {
    if lab.Capital? || (sentenceStart && lab.Keep?) then
      if tok == "" then "" else k.up(tok[0]) + tok[1..]
    else if lab.Upper? then MapChars(k.up, tok)
    else if lab.CapitalSecond? && |tok| > 1 then [tok[0]] + k.up(tok[1]) + tok[2..]
    else if lab.UpperButLast? && |tok| > 1 then MapChars(k.up, tok[..|tok| - 1]) + tok[|tok| - 1..]
    else if lab.Lower? && !sentenceStart then MapChars(k.low, tok)
    else tok
  }

  /** The same folded word, and a mark exactly when it was one. */
  ghost predicate SameWord(k: Case, a: string, b: string) {
    Fold(k, a) == Fold(k, b) && (IsMark(a) <==> IsMark(b))
  }

  /** Changing the case of the front of a word. */
  lemma SameFront(k: Case, f: char -> string, s: string, rest: string)
    requires Changes(k, f)
    ensures SameWord(k, MapChars(f, s) + rest, s + rest)
  {
    MapFolds(k, f, s);
    MapAppends(k.fold, MapChars(f, s), rest);
    MapAppends(k.fold, s, rest);
    if s != "" && rest == "" {
      assert s + rest == s && MapChars(f, s) + rest == MapChars(f, s);
    }
  }

  lemma MapOne(f: char -> string, c: char)
    ensures MapChars(f, [c]) == f(c)
  {
    assert [c][1..] == "" && f(c) + "" == f(c);
  }

  lemma FrontOf(k: Case, f: char -> string, tok: string, front: string, rest: string)
    requires Changes(k, f) && tok == front + rest
    ensures SameWord(k, MapChars(f, front) + rest, tok)
  {
    SameFront(k, f, front, rest);
  }

  lemma FirstChar(k: Case, f: char -> string, tok: string)
    requires Changes(k, f) && tok != ""
    ensures SameWord(k, f(tok[0]) + tok[1..], tok)
  {
    FrontOf(k, f, tok, [tok[0]], tok[1..]);
    MapOne(f, tok[0]);
  }

  lemma WholeWord(k: Case, f: char -> string, tok: string)
    requires Changes(k, f)
    ensures SameWord(k, MapChars(f, tok), tok)
  {
    FrontOf(k, f, tok, tok, "");
    assert MapChars(f, tok) + "" == MapChars(f, tok);
  }

  lemma SecondChar(k: Case, f: char -> string, tok: string)
    requires Changes(k, f) && |tok| > 1
    ensures SameWord(k, [tok[0]] + f(tok[1]) + tok[2..], tok)
  {
    FirstChar(k, f, tok[1..]);
    var rest := f(tok[1]) + tok[2..];
    assert tok[1..][1..] == tok[2..];
    MapAppends(k.fold, [tok[0]], rest);
    MapAppends(k.fold, [tok[0]], tok[1..]);
    assert [tok[0]] + tok[1..] == tok;
    assert [tok[0]] + rest == [tok[0]] + f(tok[1]) + tok[2..];
  }

  /** An edit keeps the folded word, and a token is a mark after it exactly when it was one. */
  lemma RecaseKeepsWord(k: Case, tok: string, lab: Label, sentenceStart: bool)
    requires Lawful(k)
    ensures SameWord(k, Recase(k, tok, lab, sentenceStart), tok)
  {
    if lab.Capital? || (sentenceStart && lab.Keep?) {
      if tok != "" {
        FirstChar(k, k.up, tok);
      }
    } else if lab.Upper? {
      WholeWord(k, k.up, tok);
    } else if lab.CapitalSecond? && |tok| > 1 {
      SecondChar(k, k.up, tok);
    } else if lab.UpperButLast? && |tok| > 1 {
      FrontOf(k, k.up, tok, tok[..|tok| - 1], tok[|tok| - 1..]);
    } else if lab.Lower? && !sentenceStart {
      WholeWord(k, k.low, tok);
    }
  }
}
