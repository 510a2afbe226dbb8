/**
 * docker/sherpa-asr/capu.py: the windowed tagger and its edits, and the
 * transcript built from them. The neural tagger is an arbitrary function.
 */
module Capu {
  import opened Casing
  import Text

  /** The label of a word and its probability. */
  datatype Tag = Tag(lab: Label, prob: real)

  type Tagger = seq<string> -> seq<Tag>

  /** The tagger answers one tag for each word. */
  ghost predicate Answers(tagger: Tagger) {
    forall ws: seq<string> :: |tagger(ws)| == |ws|
  }

  const SURE := 0.9
  const MAX_WORDS := 60
  const OVERLAP := 12
  const STEP := MAX_WORDS - OVERLAP

  // ----- windowed labelling -----

  /** Window w of n tokens is STEP * w .. WindowEnd(n, w). */
  function WindowEnd(n: nat, w: nat): nat {
    if n <= STEP * w + MAX_WORDS then n else STEP * w + MAX_WORDS
  }

  /** The loop reaches window w when the one before it does not end the text. */
  predicate HasWindow(n: nat, w: nat) {
    w == 0 || STEP * w + OVERLAP < n
  }

  predicate Covers(n: nat, w: nat, k: nat) {
    HasWindow(n, w) && STEP * w <= k < WindowEnd(n, w)
  }

  /** How far token k is from the nearest edge of window w. */
  function Margin(n: nat, w: nat, k: nat): int {
    var left := k - STEP * w;
    var right := WindowEnd(n, w) - 1 - k;
    if left < right then left else right
  }

  /** The window whose label token k ends up with. */
  function Chosen(k: nat, n: nat): nat {
    if k < OVERLAP / 2 then 0
    else
      var w := (k - OVERLAP / 2) / STEP;
      if HasWindow(n, w) then w else w - 1
  }

  /** What the tagger says of token k when asked for window w. */
  function WindowLabel(tagger: Tagger, tokens: seq<string>, w: nat, k: nat): Tag
    requires Covers(|tokens|, w, k)
  {
    var got := tagger(tokens[STEP * w..WindowEnd(|tokens|, w)]);
    if k - STEP * w < |got| then got[k - STEP * w] else Tag(Keep, 1.0)
  }

  lemma ChosenCovers(k: nat, n: nat)
    requires k < n
    ensures Covers(n, Chosen(k, n), k)
  {
  }

  /**
   * The label comes from the window in which the token is furthest from the
   * nearest edge, also when the last window is short; at most two windows
   * cover a token, and they are neighbours.
   */
  lemma ChosenIsFurthest(k: nat, n: nat, v: nat)
    requires k < n && Covers(n, v, k) && v != Chosen(k, n)
    ensures Margin(n, v, k) < Margin(n, Chosen(k, n), k)
    ensures v == Chosen(k, n) - 1 || v == Chosen(k, n) + 1
    ensures forall u: nat :: Covers(n, u, k) ==> u == v || u == Chosen(k, n)
  {
    ChosenCovers(k, n);
  }

  function Labelling(tagger: Tagger, tokens: seq<string>): (r: seq<Tag>)
    ensures |r| == |tokens|
  {
    seq(|tokens|, k requires 0 <= k < |tokens| =>
      ChosenCovers(k, |tokens|);
      WindowLabel(tagger, tokens, Chosen(k, |tokens|), k))
  }

  /** The label of token k is the tagger's answer for it in a window of sixty, begun every 48 tokens. */
  lemma LabelIsOfWindow(tagger: Tagger, tokens: seq<string>, k: nat)
    requires Answers(tagger) && k < |tokens|
    ensures var w, n := Chosen(k, |tokens|), |tokens|;
      var end := if 48 * w + 60 < n then 48 * w + 60 else n;
      48 * w <= k < end && Labelling(tagger, tokens)[k] == tagger(tokens[48 * w..end])[k - 48 * w]
  {
    ChosenCovers(k, |tokens|);
  }

  /** The window loop, writing into the list of labels. */
  method LabelTokens(tagger: Tagger, tokens: seq<string>) returns (labels: seq<Tag>)
    requires Answers(tagger) && tokens != []
    ensures labels == Labelling(tagger, tokens)
  {
    var n := |tokens|;
    labels := seq(n, _ => Tag(Keep, 1.0));
    var start := 0;
    ghost var w := 0;
    while true
      invariant start == STEP * w && HasWindow(n, w)
      invariant |labels| == n
      invariant forall k :: 0 <= k < n && w > 0 && k < start + OVERLAP / 2 ==> labels[k] == Labelling(tagger, tokens)[k]
      decreases n - start
    {
      var end := if n <= start + MAX_WORDS then n else start + MAX_WORDS;
      var got := tagger(tokens[start..end]);
      var lo := start + if start > 0 then OVERLAP / 2 else 0;
      for k := lo to end
        invariant |labels| == n
        invariant forall j :: 0 <= j < n && (w > 0 || j >= lo) && j < lo ==> labels[j] == Labelling(tagger, tokens)[j]
        invariant forall j :: lo <= j < k ==> labels[j] == got[j - start]
      {
        labels := labels[k := got[k - start]];
      }
      forall k | lo <= k < end && (end == n || k < start + STEP + OVERLAP / 2)
        ensures labels[k] == Labelling(tagger, tokens)[k]
      {
        assert Chosen(k, n) == w;
      }
      if end == n {
        break;
      }
      start := end - OVERLAP;
      w := w + 1;
    }
  }

  // ----- the edits of one pass -----

  predicate EndsSentence(out: seq<string>) {
    out == [] || out[|out| - 1] == "." || out[|out| - 1] == "?"
  }

  /** A casing change or a colon needs a confident tagger. */
  function Confident(t: Tag): Label {
    var casing := t.lab.Capital? || t.lab.Upper? || t.lab.CapitalSecond? || t.lab.UpperButLast?;
    if (casing || t.lab == Append(Colon)) && t.prob < SURE then Keep else t.lab
  }

  function AddEdited(k: Case, out: seq<string>, tok: string, t: Tag): seq<string> {
    var lab := Confident(t);
    var word := Recase(k, tok, lab, EndsSentence(out));
    if lab.Append? && !IsMark(word) then out + [word] + [lab.mark.Text()] else out + [word]
  }

  function Edited(k: Case, tokens: seq<string>, tags: seq<Tag>): seq<string>
    requires |tags| == |tokens|
  {
    if tokens == [] then []
    else
      var n := |tokens| - 1;
      AddEdited(k, Edited(k, tokens[..n], tags[..n]), tokens[n], tags[n])
  }

  function AddUnlessSecondMark(dedup: seq<string>, t: string): seq<string> {
    if IsMark(t) && dedup != [] && IsMark(dedup[|dedup| - 1]) then dedup else dedup + [t]
  }

  function Dedup(out: seq<string>): seq<string> {
    if out == [] then [] else AddUnlessSecondMark(Dedup(out[..|out| - 1]), out[|out| - 1])
  }

  function Pass(k: Case, tagger: Tagger, tokens: seq<string>): seq<string> {
    if tokens == [] then [] else Dedup(Edited(k, tokens, Labelling(tagger, tokens)))
  }

  /** The loop over tokens and labels. */
  method EditLoop(k: Case, tokens: seq<string>, labels: seq<Tag>) returns (out: seq<string>)
    requires |labels| == |tokens|
    ensures out == Edited(k, tokens, labels)
  {
    out := [];
    for i := 0 to |tokens|
      invariant out == Edited(k, tokens[..i], labels[..i])
    {
      assert tokens[..i + 1][..i] == tokens[..i] && labels[..i + 1][..i] == labels[..i];
      var lab := labels[i].lab;
      var sentenceStart := out == [] || out[|out| - 1] == "." || out[|out| - 1] == "?";
      if (lab.Capital? || lab.Upper? || lab.CapitalSecond? || lab.UpperButLast?) && labels[i].prob < SURE {
        lab := Keep;
      }
      if lab == Append(Colon) && labels[i].prob < SURE {
        lab := Keep;
      }
      var tok := Recase(k, tokens[i], lab, sentenceStart);
      out := out + [tok];
      if lab.Append? {
        if !IsMark(tok) {
          out := out + [lab.mark.Text()];
        }
      }
    }
    assert tokens[..|tokens|] == tokens && labels[..|tokens|] == labels;
  }

  /** Never two marks in a row. */
  method DedupLoop(out: seq<string>) returns (dedup: seq<string>)
    ensures dedup == Dedup(out)
  {
    dedup := [];
    for i := 0 to |out|
      invariant dedup == Dedup(out[..i])
    {
      assert out[..i + 1][..i] == out[..i];
      if IsMark(out[i]) && dedup != [] && IsMark(dedup[|dedup| - 1]) {
        continue;
      }
      dedup := dedup + [out[i]];
    }
    assert out[..|out|] == out;
  }

  /** `_pass`: label, edit, then drop a second mark in a row. */
  method RunPass(k: Case, tagger: Tagger, tokens: seq<string>) returns (dedup: seq<string>)
    requires Answers(tagger)
    ensures dedup == Pass(k, tagger, tokens)
  {
    if tokens == [] {
      return tokens;
    }
    var labels := LabelTokens(tagger, tokens);
    var out := EditLoop(k, tokens, labels);
    dedup := DedupLoop(out);
  }

  // ----- a pass never adds, drops or changes a word -----

  /** The tokens that are not marks. */
  function Words(tokens: seq<string>): seq<string> {
    if tokens == [] then []
    else
      var t := tokens[|tokens| - 1];
      Words(tokens[..|tokens| - 1]) + if IsMark(t) then [] else [t]
  }

  lemma WordsOfOneMore(tokens: seq<string>, t: string)
    ensures Words(tokens + [t]) == if IsMark(t) then Words(tokens) else Words(tokens) + [t]
  {
    assert (tokens + [t])[..|tokens|] == tokens;
    assert Words(tokens) + [] == Words(tokens);
  }

  lemma {:induction false} WordsAppend(a: seq<string>, b: seq<string>)
    ensures Words(a + b) == Words(a) + Words(b)
  {
    if b == [] {
      assert a + b == a && Words(a) + [] == Words(a);
    } else {
      var front, t := b[..|b| - 1], b[|b| - 1];
      WordsAppend(a, front);
      assert front + [t] == b;
      Text.Associative(a, front, [t]);
      WordsOfOneMore(a + front, t);
      WordsOfOneMore(front, t);
      Text.Associative(Words(a), Words(front), [t]);
    }
  }

  /** The same folded words in the same order. */
  ghost predicate SameWords(k: Case, a: seq<string>, b: seq<string>) {
    |a| == |b| && forall i :: 0 <= i < |a| ==> Fold(k, a[i]) == Fold(k, b[i])
  }

  lemma SameWordsChain(k: Case, a: seq<string>, b: seq<string>, c: seq<string>)
    requires SameWords(k, a, b) && SameWords(k, b, c)
    ensures SameWords(k, a, c)
  {
  }

  lemma AddEditedAddsWord(k: Case, out: seq<string>, tok: string, t: Tag)
    requires Lawful(k)
    ensures var word := Recase(k, tok, Confident(t), EndsSentence(out));
      && SameWord(k, word, tok)
      && Words(AddEdited(k, out, tok, t)) == if IsMark(tok) then Words(out) else Words(out) + [word]
  {
    var lab := Confident(t);
    var word := Recase(k, tok, lab, EndsSentence(out));
    RecaseKeepsWord(k, tok, lab, EndsSentence(out));
    WordsOfOneMore(out, word);
    if lab.Append? {
      WordsOfOneMore(out + [word], lab.mark.Text());
    }
  }

  lemma OneMoreWord(k: Case, a: seq<string>, b: seq<string>, x: string, y: string)
    requires SameWords(k, a, b) && Fold(k, x) == Fold(k, y)
    ensures SameWords(k, a + [x], b + [y])
  {
  }

  /** One more token and its tag. */
  lemma EditKeepsWords(k: Case, out: seq<string>, tokens: seq<string>, tok: string, t: Tag)
    requires Lawful(k) && SameWords(k, Words(out), Words(tokens))
    ensures SameWords(k, Words(AddEdited(k, out, tok, t)), Words(tokens + [tok]))
  {
    AddEditedAddsWord(k, out, tok, t);
    WordsOfOneMore(tokens, tok);
    OneMoreWord(k, Words(out), Words(tokens), Recase(k, tok, Confident(t), EndsSentence(out)), tok);
  }

  lemma {:induction false} EditedKeepsWords(k: Case, tokens: seq<string>, tags: seq<Tag>)
    requires Lawful(k) && |tags| == |tokens|
    ensures SameWords(k, Words(Edited(k, tokens, tags)), Words(tokens))
  {
    if tokens != [] {
      var n := |tokens| - 1;
      EditedKeepsWords(k, tokens[..n], tags[..n]);
      EditKeepsWords(k, Edited(k, tokens[..n], tags[..n]), tokens[..n], tokens[n], tags[n]);
      assert tokens[..n] + [tokens[n]] == tokens;
    }
  }

  lemma {:induction false} DedupKeepsWords(out: seq<string>)
    ensures Words(Dedup(out)) == Words(out)
  {
    if out != [] {
      var n := |out| - 1;
      DedupKeepsWords(out[..n]);
      WordsOfOneMore(Dedup(out[..n]), out[n]);
      assert out[..n] + [out[n]] == out;
      WordsOfOneMore(out[..n], out[n]);
    }
  }

  lemma PassKeepsWords(k: Case, tagger: Tagger, tokens: seq<string>)
    requires Lawful(k)
    ensures SameWords(k, Words(Pass(k, tagger, tokens)), Words(tokens))
  {
    if tokens != [] {
      EditedKeepsWords(k, tokens, Labelling(tagger, tokens));
      DedupKeepsWords(Edited(k, tokens, Labelling(tagger, tokens)));
    }
  }

  /** No two marks in a row. */
  ghost predicate MarksApart(tokens: seq<string>) {
    tokens == [] ||
    var n := |tokens| - 1;
    MarksApart(tokens[..n]) && (n > 0 && IsMark(tokens[n]) ==> !IsMark(tokens[n - 1]))
  }

  lemma {:induction false} DedupSeparatesMarks(out: seq<string>)
    ensures MarksApart(Dedup(out))
  {
    if out != [] {
      DedupSeparatesMarks(out[..|out| - 1]);
      var d := Dedup(out[..|out| - 1]);
      assert (d + [out[|out| - 1]])[..|d|] == d;
    }
  }

  // ----- decorate -----

  /** Repeats a pass until it changes nothing, at most `iterations` times. */
  function Repeat(pass: seq<string> -> seq<string>, tokens: seq<string>, iterations: nat): seq<string>
    decreases iterations
  {
    if iterations == 0 || pass(tokens) == tokens then tokens
    else Repeat(pass, pass(tokens), iterations - 1)
  }

  function PassWith(k: Case, tagger: Tagger): seq<string> -> seq<string> {
    tokens => Pass(k, tagger, tokens)
  }

  function Passes(k: Case, tagger: Tagger, tokens: seq<string>): seq<string> {
    Repeat(PassWith(k, tagger), tokens, ITERATIONS)
  }

  function AddToGroups(groups: seq<string>, t: string): seq<string> {
    if !IsMark(t) then groups + [t]
    else if groups == [] then groups
    else groups[..|groups| - 1] + [groups[|groups| - 1] + t]
  }

  function Groups(tokens: seq<string>): seq<string> {
    if tokens == [] then [] else AddToGroups(Groups(tokens[..|tokens| - 1]), tokens[|tokens| - 1])
  }

  const ITERATIONS := 2

  function Decorated(k: Case, tagger: Tagger, context: seq<string>, words: seq<string>): seq<string> {
    var groups := Groups(Passes(k, tagger, context + words));
    var nCtx := |Words(context)|;
    if nCtx <= |groups| then groups[nCtx..] else []
  }

  /** A word up to case, with at most one mark attached. */
  ghost predicate Decorates(k: Case, out: string, word: string) {
    || Fold(k, out) == Fold(k, word)
    || (out != "" && IsMarkChar(out[|out| - 1]) && Fold(k, out[..|out| - 1]) == Fold(k, word))
  }

  ghost predicate AllDecorate(k: Case, out: seq<string>, words: seq<string>) {
    |out| == |words| && forall i :: 0 <= i < |out| ==> Decorates(k, out[i], words[i])
  }

  lemma {:induction false} RepeatKeepsWords(k: Case, pass: seq<string> -> seq<string>, tokens: seq<string>,
                                            iterations: nat)
    requires forall ts: seq<string> :: SameWords(k, Words(pass(ts)), Words(ts))
    ensures SameWords(k, Words(Repeat(pass, tokens, iterations)), Words(tokens))
    decreases iterations
  {
    if iterations > 0 && pass(tokens) != tokens {
      RepeatKeepsWords(k, pass, pass(tokens), iterations - 1);
      SameWordsChain(k, Words(Repeat(pass, pass(tokens), iterations - 1)), Words(pass(tokens)), Words(tokens));
    }
  }

  /** After at least one pass no two marks are in a row. */
  lemma {:induction false} RepeatSeparatesMarks(pass: seq<string> -> seq<string>, tokens: seq<string>, iterations: nat)
    requires forall ts: seq<string> :: MarksApart(pass(ts))
    requires iterations > 0 || MarksApart(tokens)
    ensures MarksApart(Repeat(pass, tokens, iterations))
    decreases iterations
  {
    if iterations > 0 && pass(tokens) != tokens {
      RepeatSeparatesMarks(pass, pass(tokens), iterations - 1);
    }
  }

  lemma PassesKeepWords(k: Case, tagger: Tagger, tokens: seq<string>)
    requires Lawful(k)
    ensures SameWords(k, Words(Passes(k, tagger, tokens)), Words(tokens))
    ensures MarksApart(Passes(k, tagger, tokens))
  {
    var pass := PassWith(k, tagger);
    forall ts: seq<string> ensures SameWords(k, Words(pass(ts)), Words(ts)) && MarksApart(pass(ts)) {
      PassKeepsWords(k, tagger, ts);
      PassSeparatesMarks(k, tagger, ts);
    }
    RepeatKeepsWords(k, pass, tokens, ITERATIONS);
    RepeatSeparatesMarks(pass, tokens, ITERATIONS);
  }

  lemma PassSeparatesMarks(k: Case, tagger: Tagger, tokens: seq<string>)
    ensures MarksApart(Pass(k, tagger, tokens))
  {
    if tokens != [] {
      DedupSeparatesMarks(Edited(k, tokens, Labelling(tagger, tokens)));
    }
  }

  /**
   * A group is its word, or its word and one mark when the marks are apart;
   * marks before the first word belong to none.
   */
  lemma {:induction false} GroupsAreWords(tokens: seq<string>)
    requires MarksApart(tokens)
    ensures |Groups(tokens)| == |Words(tokens)|
    ensures forall i :: 0 <= i < |Words(tokens)| ==> Attached(Groups(tokens)[i], Words(tokens)[i])
    ensures tokens != [] && !IsMark(tokens[|tokens| - 1]) ==>
              Groups(tokens)[|Groups(tokens)| - 1] == Words(tokens)[|Words(tokens)| - 1] == tokens[|tokens| - 1]
  {
    if tokens != [] {
      var n := |tokens| - 1;
      GroupsAreWords(tokens[..n]);
      assert tokens[..n] + [tokens[n]] == tokens;
      WordsOfOneMore(tokens[..n], tokens[n]);
      if IsMark(tokens[n]) && n > 0 {
        assert tokens[..n][n - 1] == tokens[n - 1];
      }
    }
  }

  ghost predicate Attached(group: string, word: string) {
    group == word || (|group| == |word| + 1 && group[..|word|] == word && IsMarkChar(group[|word|]))
  }

  /** The assert in decorate holds exactly when no word is itself a mark. */
  lemma DecorateAssertHolds(k: Case, tagger: Tagger, context: seq<string>, words: seq<string>)
    requires Lawful(k)
    ensures |Decorated(k, tagger, context, words)| == |words| <==> forall i :: 0 <= i < |words| ==> !IsMark(words[i])
  {
    PassesKeepWords(k, tagger, context + words);
    GroupsAreWords(Passes(k, tagger, context + words));
    WordsAppend(context, words);
    AllWords(words);
  }

  lemma {:induction false} AllWords(words: seq<string>)
    ensures |Words(words)| <= |words|
    ensures |Words(words)| == |words| <==> forall i :: 0 <= i < |words| ==> !IsMark(words[i])
    ensures |Words(words)| == |words| ==> Words(words) == words
  {
    if words != [] {
      var n := |words| - 1;
      AllWords(words[..n]);
      assert words[..n] + [words[n]] == words;
      WordsOfOneMore(words[..n], words[n]);
      assert (forall i :: 0 <= i < |words| ==> !IsMark(words[i]))
        <==> !IsMark(words[n]) && forall i :: 0 <= i < n ==> !IsMark(words[..n][i]);
    }
  }

  /** Decorating changes case and attaches at most one mark, whatever the tagger says. */
  lemma DecorateKeepsWords(k: Case, tagger: Tagger, context: seq<string>, words: seq<string>)
    requires Lawful(k)
    requires forall i :: 0 <= i < |words| ==> !IsMark(words[i])
    ensures AllDecorate(k, Decorated(k, tagger, context, words), words)
  {
    var tokens := Passes(k, tagger, context + words);
    PassesKeepWords(k, tagger, context + words);
    GroupsAreWords(tokens);
    WordsAppend(context, words);
    AllWords(words);
    GroupsDecorate(k, Groups(tokens), Words(tokens), Words(context), words);
  }

  lemma GroupsDecorate(k: Case, groups: seq<string>, found: seq<string>, context: seq<string>, words: seq<string>)
    requires |groups| == |found| && SameWords(k, found, context + words)
    requires forall i :: 0 <= i < |found| ==> Attached(groups[i], found[i])
    ensures AllDecorate(k, groups[|context|..], words)
  {
    var out := groups[|context|..];
    forall i | 0 <= i < |out| ensures Decorates(k, out[i], words[i]) {
      var j := |context| + i;
      assert (context + words)[j] == words[i] && Attached(groups[j], found[j]);
    }
  }

  method PassLoop(k: Case, tagger: Tagger, tokens0: seq<string>) returns (tokens: seq<string>)
    requires Answers(tagger)
    ensures tokens == Passes(k, tagger, tokens0)
  {
    tokens := tokens0;
    for i := 0 to ITERATIONS
      invariant Repeat(PassWith(k, tagger), tokens, ITERATIONS - i) == Passes(k, tagger, tokens0)
    {
      var edited := RunPass(k, tagger, tokens);
      if edited == tokens {
        break;
      }
      tokens := edited;
    }
  }

  method GroupLoop(tokens: seq<string>) returns (groups: seq<string>)
    ensures groups == Groups(tokens)
  {
    groups := [];
    for i := 0 to |tokens|
      invariant groups == Groups(tokens[..i])
    {
      assert tokens[..i + 1][..i] == tokens[..i];
      if IsMark(tokens[i]) {
        if groups != [] {
          groups := groups[..|groups| - 1] + [groups[|groups| - 1] + tokens[i]];
        }
      } else {
        groups := groups + [tokens[i]];
      }
    }
    assert tokens[..|tokens|] == tokens;
  }

  /** `decorate`, whose assert is the length in the contract. */
  method Decorate(k: Case, tagger: Tagger, context: seq<string>, words: seq<string>) returns (out: seq<string>)
    requires Lawful(k) && Answers(tagger)
    requires forall i :: 0 <= i < |words| ==> !IsMark(words[i])
    ensures out == Decorated(k, tagger, context, words) && |out| == |words|
  {
    DecorateAssertHolds(k, tagger, context, words);
    ContextFits(k, tagger, context, words);
    var tokens := PassLoop(k, tagger, context + words);
    var groups := GroupLoop(tokens);
    out := groups[|Words(context)|..];
  }

  /** The groups of the context come first, so the cut lies inside the groups. */
  lemma ContextFits(k: Case, tagger: Tagger, context: seq<string>, words: seq<string>)
    requires Lawful(k)
    ensures |Words(context)| <= |Groups(Passes(k, tagger, context + words))|
  {
    PassesKeepWords(k, tagger, context + words);
    GroupsAreWords(Passes(k, tagger, context + words));
    WordsAppend(context, words);
  }
}
