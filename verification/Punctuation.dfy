/**
 * docker/sherpa-asr/capu.py: what the edits and the grouping put into the text. Which mark follows
 * which word and which letters change is read off the tokens, their labels and the probabilities.
 */
module Punctuation {
  import opened Capu
  import opened Casing
  import Text

  /** The mark right behind token j, if one stands there. */
  function MarkBehind(tokens: seq<string>, j: nat): string
    requires j < |tokens|
  {
    if j + 1 < |tokens| && IsMark(tokens[j + 1]) then tokens[j + 1] else ""
  }

  /** How many words stand before token j. */
  function WordsBefore(tokens: seq<string>, j: nat): nat
    requires j <= |tokens|
  {
    |Words(tokens[..j])|
  }

  // ----- the groups -----

  lemma WordCounts(tokens: seq<string>, j: nat)
    requires j < |tokens|
    ensures WordsBefore(tokens, j + 1) == WordsBefore(tokens, j) + if IsMark(tokens[j]) then 0 else 1
  {
    assert tokens[..j + 1] == tokens[..j] + [tokens[j]];
    WordsOfOneMore(tokens[..j], tokens[j]);
  }

  lemma {:induction false} WordsAscend(tokens: seq<string>, i: nat, j: nat)
    requires i <= j <= |tokens|
    ensures WordsBefore(tokens, i) <= WordsBefore(tokens, j)
    decreases j
  {
    if i < j {
      WordsAscend(tokens, i, j - 1);
      WordCounts(tokens, j - 1);
    }
  }

  lemma OneMoreGroup(tokens: seq<string>, t: string)
    requires MarksApart(tokens + [t])
    ensures MarksApart(tokens) && |Groups(tokens)| == |Words(tokens)|
    ensures Groups(tokens + [t]) == AddToGroups(Groups(tokens), t)
    ensures |Groups(tokens + [t])| == |Words(tokens + [t])|
    ensures tokens != [] && IsMark(t) ==> !IsMark(tokens[|tokens| - 1])
  {
    assert (tokens + [t])[..|tokens|] == tokens;
    GroupsAreWords(tokens);
    GroupsAreWords(tokens + [t]);
    if tokens != [] { assert (tokens + [t])[|tokens| - 1] == tokens[|tokens| - 1]; }
  }

  lemma LastWord(tokens: seq<string>, j: nat)
    requires j < |tokens| && !IsMark(tokens[j])
    ensures WordsBefore(tokens, j) < |Words(tokens)|
    ensures !IsMark(tokens[|tokens| - 1]) ==>
              (WordsBefore(tokens, j) == |Words(tokens)| - 1 <==> j == |tokens| - 1)
  {
    var n := |tokens|;
    assert tokens[..n] == tokens;
    WordCounts(tokens, j);
    WordsAscend(tokens, j + 1, n);
    if j < n - 1 {
      WordsAscend(tokens, j + 1, n - 1);
    }
    WordCounts(tokens, n - 1);
  }

  /** The group of a word is the word and the mark right behind it. */
  lemma {:induction false} GroupIsWordAndMark(tokens: seq<string>, j: nat)
    requires MarksApart(tokens) && j < |tokens| && !IsMark(tokens[j])
    ensures WordsBefore(tokens, j) < |Groups(tokens)| == |Words(tokens)|
    ensures Groups(tokens)[WordsBefore(tokens, j)] == tokens[j] + MarkBehind(tokens, j)
    decreases |tokens|
  {
    var n := |tokens| - 1;
    var init, last := tokens[..n], tokens[n];
    assert init + [last] == tokens;
    OneMoreGroup(init, last);
    LastWord(tokens, j);
    if j < n {
      assert init[..j] == tokens[..j];
      GroupIsWordAndMark(init, j);
      LastWord(init, j);
    }
  }

  /** Every group is that of some word. */
  lemma {:induction false} EveryGroupHasWord(tokens: seq<string>, i: nat) returns (j: nat)
    requires i < |Words(tokens)|
    ensures j < |tokens| && !IsMark(tokens[j]) && WordsBefore(tokens, j) == i && Words(tokens)[i] == tokens[j]
  {
    var n := |tokens| - 1;
    var init := tokens[..n];
    if i < |Words(init)| {
      j := EveryGroupHasWord(init, i);
      assert init[..j] == tokens[..j];
    } else {
      j := n;
    }
  }

  /** The tokens less the marks before the first word. */
  function FromFirstWord(tokens: seq<string>): seq<string> {
    if tokens != [] && IsMark(tokens[0]) then FromFirstWord(tokens[1..]) else tokens
  }

  lemma {:induction false} FromFirstWordGrows(tokens: seq<string>, t: string)
    ensures FromFirstWord(tokens + [t])
         == if FromFirstWord(tokens) == [] && IsMark(t) then [] else FromFirstWord(tokens) + [t]
  {
    if tokens == [] {
      assert tokens + [t] == [t] && [t][1..] == [];
    } else if IsMark(tokens[0]) {
      assert (tokens + [t])[1..] == tokens[1..] + [t];
      FromFirstWordGrows(tokens[1..], t);
    }
  }

  /** Grouping loses nothing but marks before the first word: joined, the groups are the tokens. */
  lemma {:induction false} GroupsKeepText(tokens: seq<string>)
    ensures Text.Concat(Groups(tokens)) == Text.Concat(FromFirstWord(tokens))
    ensures Groups(tokens) == [] <==> FromFirstWord(tokens) == []
  {
    if tokens != [] {
      var n := |tokens| - 1;
      var init, t := tokens[..n], tokens[n];
      assert init + [t] == tokens;
      GroupsKeepText(init);
      FromFirstWordGrows(init, t);
      Text.ConcatAppend(FromFirstWord(init), [t]);
      Text.ConcatSingle(t);
      AddedText(Groups(init), t);
    }
  }

  lemma AddedText(groups: seq<string>, t: string)
    ensures Text.Concat(AddToGroups(groups, t))
         == if groups == [] && IsMark(t) then "" else Text.Concat(groups) + t
  {
    Text.ConcatAppend(groups, [t]);
    Text.ConcatSingle(t);
    if IsMark(t) && groups != [] {
      var n := |groups| - 1;
      assert groups == groups[..n] + [groups[n]];
      Text.ConcatAppend(groups[..n], [groups[n]]);
      Text.ConcatAppend(groups[..n], [groups[n] + t]);
      Text.ConcatSingle(groups[n]);
      Text.ConcatSingle(groups[n] + t);
    }
  }

  // ----- which letters change -----

  datatype Change = Same | Up | Low

  /** A word with each letter changed as told. */
  function Spelt(k: Case, tok: string, change: nat -> Change, n: nat): string
    requires n <= |tok|
  {
    if n == 0 then ""
    else
      Spelt(k, tok, change, n - 1)
      + match change(n - 1)
        case Same => [tok[n - 1]]
        case Up => k.up(tok[n - 1])
        case Low => k.low(tok[n - 1])
  }

  /** A change of case, and a colon, count only from a sure tagger. */
  predicate Counts(t: Tag) {
    t.prob >= 0.9 || t.lab.Keep? || t.lab.Lower? || t.lab.Other? || (t.lab.Append? && t.lab.mark != Colon)
  }

  /** What becomes of letter i of a word of n letters. */
  function ChangeOf(t: Tag, start: bool, n: nat, i: nat): Change {
    if Counts(t) && t.lab.Upper? then Up
    else if Counts(t) && t.lab.Capital? then (if i == 0 then Up else Same)
    else if Counts(t) && t.lab.CapitalSecond? then (if i == 1 then Up else Same)
    else if Counts(t) && t.lab.UpperButLast? then (if i + 1 < n then Up else Same)
    else if t.lab.Lower? && !start then Low
    else if (t.lab.Keep? || !Counts(t)) && start && i == 0 then Up
    else Same
  }

  lemma {:induction false} SpeltSame(k: Case, tok: string, change: nat -> Change, m: nat, n: nat)
    requires m <= n <= |tok| && forall i :: m <= i < n ==> change(i) == Same
    ensures Spelt(k, tok, change, n) == Spelt(k, tok, change, m) + tok[m..n]
    decreases n
  {
    if m < n {
      SpeltSame(k, tok, change, m, n - 1);
      assert tok[m..n] == tok[m..n - 1] + [tok[n - 1]];
    } else {
      assert tok[m..n] == "";
    }
  }

  lemma {:induction false} SpeltUp(k: Case, tok: string, change: nat -> Change, n: nat)
    requires n <= |tok| && forall i :: 0 <= i < n ==> change(i) == Up
    ensures Spelt(k, tok, change, n) == MapChars(k.up, tok[..n])
  {
    if n > 0 {
      SpeltUp(k, tok, change, n - 1);
      assert tok[..n] == tok[..n - 1] + [tok[n - 1]];
      MapAppends(k.up, tok[..n - 1], [tok[n - 1]]);
      MapOne(k.up, tok[n - 1]);
    }
  }

  lemma {:induction false} SpeltLow(k: Case, tok: string, change: nat -> Change, n: nat)
    requires n <= |tok| && forall i :: 0 <= i < n ==> change(i) == Low
    ensures Spelt(k, tok, change, n) == MapChars(k.low, tok[..n])
  {
    if n > 0 {
      SpeltLow(k, tok, change, n - 1);
      assert tok[..n] == tok[..n - 1] + [tok[n - 1]];
      MapAppends(k.low, tok[..n - 1], [tok[n - 1]]);
      MapOne(k.low, tok[n - 1]);
    }
  }

  function ChangesOf(t: Tag, start: bool, n: nat): nat -> Change {
    (i: nat) => ChangeOf(t, start, n, i)
  }

  lemma WholeChanges(k: Case, tok: string, t: Tag, start: bool)
    requires t.lab.Upper? || t.lab.Lower?
    ensures Recase(k, tok, Confident(t), start) == Spelt(k, tok, ChangesOf(t, start, |tok|), |tok|)
  {
    var change, n := ChangesOf(t, start, |tok|), |tok|;
    assert tok[..n] == tok;
    if t.lab.Upper? && Counts(t) {
      SpeltUp(k, tok, change, n);
    } else if t.lab.Lower? && !start {
      SpeltLow(k, tok, change, n);
    } else {
      FirstChanges(k, tok, change);
    }
  }

  /** Nothing changes but perhaps the first letter. */
  lemma FirstChanges(k: Case, tok: string, change: nat -> Change)
    requires forall i :: 0 < i < |tok| ==> change(i) == Same
    requires tok != "" ==> change(0) != Low
    ensures Spelt(k, tok, change, |tok|)
         == if tok != "" && change(0) == Up then k.up(tok[0]) + tok[1..] else tok
  {
    if tok != "" {
      SpeltSame(k, tok, change, 1, |tok|);
      assert Spelt(k, tok, change, 1)
          == Spelt(k, tok, change, 0) + (if change(0) == Up then k.up(tok[0]) else [tok[0]]);
      assert [tok[0]] + tok[1..] == tok;
    }
  }

  /** The letters from m on stay as they are. */
  lemma RestStays(k: Case, tok: string, change: nat -> Change, m: nat, front: string)
    requires m <= |tok| && (forall i :: m <= i < |tok| ==> change(i) == Same) && Spelt(k, tok, change, m) == front
    ensures Spelt(k, tok, change, |tok|) == front + tok[m..]
  {
    SpeltSame(k, tok, change, m, |tok|);
    assert tok[m..|tok|] == tok[m..];
  }

  lemma FrontTwo(k: Case, tok: string, change: nat -> Change)
    requires |tok| > 1 && change(0) == Same && change(1) == Up
    ensures Spelt(k, tok, change, 2) == [tok[0]] + k.up(tok[1])
  {
    assert Spelt(k, tok, change, 0) == "";
    assert Spelt(k, tok, change, 1) == [tok[0]];
  }

  lemma PartChanges(k: Case, tok: string, t: Tag, start: bool)
    requires Counts(t) && |tok| > 1 && (t.lab.CapitalSecond? || t.lab.UpperButLast?)
    ensures Recase(k, tok, Confident(t), start) == Spelt(k, tok, ChangesOf(t, start, |tok|), |tok|)
  {
    var change, n := ChangesOf(t, start, |tok|), |tok|;
    if t.lab.CapitalSecond? {
      FrontTwo(k, tok, change);
      RestStays(k, tok, change, 2, [tok[0]] + k.up(tok[1]));
    } else {
      SpeltUp(k, tok, change, n - 1);
      RestStays(k, tok, change, n - 1, MapChars(k.up, tok[..n - 1]));
    }
  }

  /** The edit of a word, letter by letter. */
  lemma RecaseIsExact(k: Case, tok: string, t: Tag, start: bool)
    ensures Recase(k, tok, Confident(t), start) == Spelt(k, tok, ChangesOf(t, start, |tok|), |tok|)
  {
    if t.lab.Upper? || t.lab.Lower? {
      WholeChanges(k, tok, t, start);
    } else if Counts(t) && |tok| > 1 && (t.lab.CapitalSecond? || t.lab.UpperButLast?) {
      PartChanges(k, tok, t, start);
    } else {
      FirstChanges(k, tok, ChangesOf(t, start, |tok|));
    }
  }

  // ----- which marks are put in -----

  /** The mark a label puts behind a token; none behind a mark, and a colon only from a sure tagger. */
  function GivenMark(tok: string, t: Tag): string {
    if IsMark(tok) || !t.lab.Append? then ""
    else match t.lab.mark
      case Comma => ","
      case Period => "."
      case Question => "?"
      case Colon => if t.prob >= 0.9 then ":" else ""
  }

  /** A full stop or a question mark: the token itself, or put behind it. */
  predicate Stops(tok: string, t: Tag) {
    if IsMark(tok) then tok == "." || tok == "?" else t.lab == Append(Period) || t.lab == Append(Question)
  }

  /** A full stop or a question mark stands in front of token j, there already or put there. */
  predicate AtStart(tokens: seq<string>, tags: seq<Tag>, j: nat)
    requires j <= |tokens| == |tags|
  {
    j == 0 || Stops(tokens[j - 1], tags[j - 1])
  }

  /** The word that becomes of token j. */
  function EditedWord(k: Case, tokens: seq<string>, tags: seq<Tag>, j: nat): string
    requires j < |tokens| == |tags|
  {
    Spelt(k, tokens[j], ChangesOf(tags[j], AtStart(tokens, tags, j), |tokens[j]|), |tokens[j]|)
  }

  lemma MarkStays(k: Case, tok: string, lab: Label, start: bool)
    requires Lawful(k)
    ensures IsMark(Recase(k, tok, lab, start)) <==> IsMark(tok)
    ensures IsMark(tok) ==> Recase(k, tok, lab, start) == tok
  {
    RecaseKeepsWord(k, tok, lab, start);
    if IsMark(tok) {
      assert tok == [tok[0]] && tok[1..] == "";
      MapOne(k.up, tok[0]);
      MapOne(k.low, tok[0]);
    }
  }

  lemma GivenIsAdded(k: Case, out: seq<string>, tok: string, t: Tag)
    requires Lawful(k)
    ensures var word := Recase(k, tok, Confident(t), EndsSentence(out));
      AddEdited(k, out, tok, t) == out + [word] + if GivenMark(tok, t) == "" then [] else [GivenMark(tok, t)]
  {
    var word := Recase(k, tok, Confident(t), EndsSentence(out));
    MarkStays(k, tok, Confident(t), EndsSentence(out));
    assert out + [word] + [] == out + [word];
  }

  lemma EndsOfTwo(out: seq<string>, word: string, more: seq<string>)
    requires |more| <= 1
    ensures var last := if more == [] then word else more[0];
      EndsSentence(out + [word] + more) <==> last == "." || last == "?"
  {
  }

  lemma EndsByMark(out: seq<string>, word: string, tok: string, t: Tag)
    requires (IsMark(word) <==> IsMark(tok)) && (IsMark(tok) ==> word == tok)
    ensures var given := GivenMark(tok, t);
      EndsSentence(out + [word] + if given == "" then [] else [given]) <==> Stops(tok, t)
  {
    var given := GivenMark(tok, t);
    EndsOfTwo(out, word, if given == "" then [] else [given]);
    assert IsMark(".") && IsMark("?");
  }

  lemma AddedEnds(k: Case, out: seq<string>, tok: string, t: Tag)
    requires Lawful(k)
    ensures EndsSentence(AddEdited(k, out, tok, t)) <==> Stops(tok, t)
  {
    GivenIsAdded(k, out, tok, t);
    MarkStays(k, tok, Confident(t), EndsSentence(out));
    EndsByMark(out, Recase(k, tok, Confident(t), EndsSentence(out)), tok, t);
  }

  /** The output ends a sentence exactly where the tokens and labels say so. */
  lemma EndIsStart(k: Case, tokens: seq<string>, tags: seq<Tag>)
    requires Lawful(k) && |tags| == |tokens|
    ensures EndsSentence(Edited(k, tokens, tags)) <==> AtStart(tokens, tags, |tokens|)
  {
    if tokens != [] {
      var n := |tokens| - 1;
      AddedEnds(k, Edited(k, tokens[..n], tags[..n]), tokens[n], tags[n]);
    }
  }

  lemma {:induction false} EditedGrows(k: Case, tokens: seq<string>, tags: seq<Tag>, j: nat)
    requires j <= |tokens| == |tags|
    ensures Edited(k, tokens[..j], tags[..j]) <= Edited(k, tokens, tags)
    decreases |tokens|
  {
    if j == |tokens| {
      assert tokens[..j] == tokens && tags[..j] == tags;
    } else {
      var n := |tokens| - 1;
      EditedGrows(k, tokens[..n], tags[..n], j);
      assert tokens[..n][..j] == tokens[..j] && tags[..n][..j] == tags[..j];
    }
  }

  /** Where token j comes in the output. */
  function PlaceOf(k: Case, tokens: seq<string>, tags: seq<Tag>, j: nat): nat
    requires j <= |tokens| == |tags|
  {
    |Edited(k, tokens[..j], tags[..j])|
  }

  /** Token j becomes its edited word and the mark its label puts behind it. */
  lemma EditedAt(k: Case, tokens: seq<string>, tags: seq<Tag>, j: nat)
    requires Lawful(k) && j < |tokens| == |tags|
    ensures var out, p := Edited(k, tokens, tags), PlaceOf(k, tokens, tags, j);
      var given := GivenMark(tokens[j], tags[j]);
      && p < |out| && out[p] == EditedWord(k, tokens, tags, j) && (IsMark(out[p]) <==> IsMark(tokens[j]))
      && (IsMark(tokens[j]) ==> out[p] == tokens[j])
      && (if given == "" then PlaceOf(k, tokens, tags, j + 1) == p + 1
          else PlaceOf(k, tokens, tags, j + 1) == p + 2 && p + 1 < |out| && out[p + 1] == given)
  {
    var before := Edited(k, tokens[..j], tags[..j]);
    assert tokens[..j + 1][..j] == tokens[..j] && tags[..j + 1][..j] == tags[..j];
    EndIsStart(k, tokens[..j], tags[..j]);
    GivenIsAdded(k, before, tokens[j], tags[j]);
    RecaseIsExact(k, tokens[j], tags[j], EndsSentence(before));
    MarkStays(k, tokens[j], Confident(tags[j]), EndsSentence(before));
    EditedGrows(k, tokens, tags, j + 1);
  }

  lemma {:induction false} PlaceKeepsCount(k: Case, tokens: seq<string>, tags: seq<Tag>, j: nat)
    requires Lawful(k) && j <= |tokens| == |tags|
    ensures PlaceOf(k, tokens, tags, j) <= |Edited(k, tokens, tags)|
    ensures WordsBefore(Edited(k, tokens, tags), PlaceOf(k, tokens, tags, j)) == WordsBefore(tokens, j)
  {
    EditedGrows(k, tokens, tags, j);
    EditedKeepsWords(k, tokens[..j], tags[..j]);
    assert Edited(k, tokens, tags)[..PlaceOf(k, tokens, tags, j)] == Edited(k, tokens[..j], tags[..j]);
  }

  /** What stands behind word j: the mark put there, else the mark that stood there. */
  function MarkToBe(tokens: seq<string>, tags: seq<Tag>, j: nat): string
    requires j < |tokens| == |tags|
  {
    if GivenMark(tokens[j], tags[j]) != "" then GivenMark(tokens[j], tags[j]) else MarkBehind(tokens, j)
  }

  lemma EditedPunctuates(k: Case, tokens: seq<string>, tags: seq<Tag>, j: nat)
    requires Lawful(k) && j < |tokens| == |tags| && !IsMark(tokens[j])
    ensures var out, p := Edited(k, tokens, tags), PlaceOf(k, tokens, tags, j);
      && p < |out| && out[p] == EditedWord(k, tokens, tags, j) && !IsMark(out[p])
      && MarkBehind(out, p) == MarkToBe(tokens, tags, j) && WordsBefore(out, p) == WordsBefore(tokens, j)
  {
    EditedAt(k, tokens, tags, j);
    PlaceKeepsCount(k, tokens, tags, j);
    if j + 1 < |tokens| {
      EditedAt(k, tokens, tags, j + 1);
    } else {
      assert tokens[..j + 1] == tokens && tags[..j + 1] == tags;
    }
  }

  // ----- a second mark in a row -----

  /** Exactly the marks behind a mark are dropped. */
  lemma {:induction false} DedupDropsSecondMarks(out: seq<string>)
    requires out != []
    ensures var n := |out| - 1;
      Dedup(out) == Dedup(out[..n]) + if IsMark(out[n]) && n > 0 && IsMark(out[n - 1]) then [] else [out[n]]
    ensures Dedup(out) != [] && (IsMark(Dedup(out)[|Dedup(out)| - 1]) <==> IsMark(out[|out| - 1]))
  {
    var n := |out| - 1;
    assert Dedup(out[..n]) + [] == Dedup(out[..n]);
    if n > 0 { DedupDropsSecondMarks(out[..n]); }
  }

  lemma {:induction false} DedupGrows(out: seq<string>, p: nat)
    requires p <= |out|
    ensures Dedup(out[..p]) <= Dedup(out)
    decreases |out|
  {
    if p == |out| {
      assert out[..p] == out;
    } else {
      var n := |out| - 1;
      DedupGrows(out[..n], p);
      assert out[..n][..p] == out[..p];
    }
  }

  /** A word is kept, and so is the first mark behind it. */
  lemma DedupKeepsPunctuation(out: seq<string>, p: nat)
    requires p < |out| && !IsMark(out[p])
    ensures var d, q := Dedup(out), |Dedup(out[..p])|;
      && q < |d| && d[q] == out[p] && MarkBehind(d, q) == MarkBehind(out, p)
      && WordsBefore(d, q) == WordsBefore(out, p)
  {
    var d, q := Dedup(out), |Dedup(out[..p])|;
    assert out[..p + 1][..p] == out[..p];
    DedupDropsSecondMarks(out[..p + 1]);
    DedupGrows(out, p);
    DedupGrows(out, p + 1);
    assert d[..q] == Dedup(out[..p]);
    DedupKeepsWords(out[..p]);
    if p + 1 < |out| {
      assert out[..p + 2][..p + 1] == out[..p + 1];
      DedupDropsSecondMarks(out[..p + 2]);
      DedupGrows(out, p + 2);
    } else {
      assert out[..p + 1] == out;
    }
  }

  // ----- a pass, and decorate -----

  /**
   * A pass, word by word: the word is spelt as its label, its probability and the sentence start say,
   * and behind it stands the mark its label puts there, else the one that stood there.
   */
  lemma PassPunctuates(k: Case, tagger: Tagger, tokens: seq<string>, j: nat) returns (q: nat)
    requires Lawful(k) && j < |tokens| && !IsMark(tokens[j])
    ensures var out, tags := Pass(k, tagger, tokens), Labelling(tagger, tokens);
      && q < |out| && !IsMark(out[q]) && WordsBefore(out, q) == WordsBefore(tokens, j)
      && out[q] == EditedWord(k, tokens, tags, j) && MarkBehind(out, q) == MarkToBe(tokens, tags, j)
  {
    var tags := Labelling(tagger, tokens);
    var edited, p := Edited(k, tokens, tags), PlaceOf(k, tokens, tags, j);
    EditedPunctuates(k, tokens, tags, j);
    DedupKeepsPunctuation(edited, p);
    q := |Dedup(edited[..p])|;
  }

  /** Stopping early makes no difference: the tokens go through two passes. */
  lemma TwoPasses(k: Case, tagger: Tagger, tokens: seq<string>)
    ensures Passes(k, tagger, tokens) == Pass(k, tagger, Pass(k, tagger, tokens))
  {
    var pass := PassWith(k, tagger);
    assert Repeat(pass, pass(tokens), 1)
        == if pass(pass(tokens)) == pass(tokens) then pass(tokens) else Repeat(pass, pass(pass(tokens)), 0);
  }

  lemma GroupBehind(tokens: seq<string>, c: nat, i: nat) returns (j: nat)
    requires MarksApart(tokens) && c + i < |Words(tokens)|
    ensures j < |tokens| && !IsMark(tokens[j]) && WordsBefore(tokens, j) == c + i
    ensures c + i < |Groups(tokens)| && Groups(tokens)[c..][i] == tokens[j] + MarkBehind(tokens, j)
  {
    j := EveryGroupHasWord(tokens, c + i);
    GroupIsWordAndMark(tokens, j);
  }

  /** Decorated word i is the word of its number in the tokens behind the context, with the mark behind it. */
  lemma DecoratedIsWordAndMark(k: Case, tagger: Tagger, context: seq<string>, words: seq<string>, i: nat)
    returns (j: nat)
    requires Lawful(k) && i < |words| && forall n :: 0 <= n < |words| ==> !IsMark(words[n])
    ensures var tokens := Pass(k, tagger, Pass(k, tagger, context + words));
      && j < |tokens| && !IsMark(tokens[j]) && WordsBefore(tokens, j) == |Words(context)| + i
      && i < |Decorated(k, tagger, context, words)|
      && Decorated(k, tagger, context, words)[i] == tokens[j] + MarkBehind(tokens, j)
  {
    TwoPasses(k, tagger, context + words);
    FinalTokens(k, tagger, context, words);
    j := GroupBehind(Passes(k, tagger, context + words), |Words(context)|, i);
  }

  lemma FinalTokens(k: Case, tagger: Tagger, context: seq<string>, words: seq<string>)
    requires Lawful(k) && forall n :: 0 <= n < |words| ==> !IsMark(words[n])
    ensures var tokens := Passes(k, tagger, context + words);
      MarksApart(tokens) && |Words(tokens)| == |Words(context)| + |words|
  {
    PassesKeepWords(k, tagger, context + words);
    WordsAppend(context, words);
    AllWords(words);
  }
}
