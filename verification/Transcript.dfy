/**
 * docker/sherpa-asr/capu.py, class Transcript: the punctuated text of one
 * dictation session.
 */
module Transcripts {
  import opened Casing
  import opened Capu
  import Text

  const KEEP_LIVE := 24
  const CONTEXT := 24

  /** `s[-n:]` */
  function Tail(s: seq<string>, n: nat): seq<string> {
    if |s| <= n then s else s[|s| - n..]
  }

  /** `split_tokens`, a regular expression over normalised text, is arbitrary. */
  type Tokenizer = string -> seq<string>

  function AllTokens(split: Tokenizer, words: seq<string>): seq<string> {
    if words == [] then [] else AllTokens(split, words[..|words| - 1]) + split(words[|words| - 1])
  }

  /** `decorate` with its tagger: context and words in, decorated words out. */
  type Decorator = (seq<string>, seq<string>) -> seq<string>

  function DecorateWith(k: Case, tagger: Tagger): Decorator {
    (context, words) => Decorated(k, tagger, context, words)
  }

  datatype Session = Session(k: Case, decorate: Decorator, split: Tokenizer, draft: seq<string>)

  ghost predicate NoMarks(words: seq<string>) {
    forall i :: 0 <= i < |words| ==> !IsMark(words[i])
  }

  ghost predicate KeepsWords(k: Case, decorate: Decorator) {
    forall context: seq<string>, words: seq<string> ::
      NoMarks(words) ==> AllDecorate(k, decorate(context, words), words)
  }

  /** Whatever the tagger says, decorating keeps the words. */
  lemma AnyTaggerKeepsWords(k: Case, tagger: Tagger)
    requires Lawful(k)
    ensures KeepsWords(k, DecorateWith(k, tagger))
  {
    var decorate := DecorateWith(k, tagger);
    forall context: seq<string>, words: seq<string> | NoMarks(words)
      ensures AllDecorate(k, decorate(context, words), words)
    {
      DecorateKeepsWords(k, tagger, context, words);
    }
  }

  datatype State = State(frozen: seq<string>, live: seq<string>, liveRaw: seq<string>)

  function ContextOf(s: Session, st: State): seq<string> {
    Tail(s.draft + AllTokens(s.split, st.frozen), CONTEXT)
  }

  /**
   * One utterance: everything still live is decorated again, and what is more
   * than KEEP_LIVE behind the end of a long tail is frozen.
   */
  function Add(s: Session, st: State, utterance: seq<string>): State {
    var raw := st.liveRaw + utterance;
    Frozen(st, raw, s.decorate(ContextOf(s, st), raw))
  }

  /** The new state from the decorated words. */
  function Frozen(st: State, raw: seq<string>, live: seq<string>): State {
    var cut := |raw| - KEEP_LIVE;
    if |raw| > 2 * KEEP_LIVE && cut <= |live|
    then State(st.frozen + live[..cut], live[cut..], raw[cut..])
    else State(st.frozen, live, raw)
  }

  function Said(utterances: seq<seq<string>>): seq<string> {
    if utterances == [] then [] else Said(utterances[..|utterances| - 1]) + utterances[|utterances| - 1]
  }

  function Run(s: Session, utterances: seq<seq<string>>): State {
    if utterances == [] then State([], [], [])
    else Add(s, Run(s, utterances[..|utterances| - 1]), utterances[|utterances| - 1])
  }

  /**
   * What one utterance leaves to be shown: the frozen words, and behind them everything still live
   * decorated anew; with more than 48 words live all but the last 24 of them are frozen.
   */
  lemma AddShowsDecorated(s: Session, st: State, utterance: seq<string>)
    requires var raw := st.liveRaw + utterance; |s.decorate(ContextOf(s, st), raw)| == |raw|
    ensures var raw, t := st.liveRaw + utterance, Add(s, st, utterance);
      && t.frozen + t.live == st.frozen + s.decorate(ContextOf(s, st), raw)
      && (if |raw| > 48 then |t.live| == 24 && t.liveRaw == raw[|raw| - 24..]
          else t.frozen == st.frozen && t.liveRaw == raw)
  {
    var raw := st.liveRaw + utterance;
    var live := s.decorate(ContextOf(s, st), raw);
    if |raw| > 48 {
      assert live == live[..|raw| - 24] + live[|raw| - 24..];
    }
  }

  /** The context is the last 24 tokens of the draft and the frozen text, or all of them. */
  lemma ContextIsLast(s: Session, st: State)
    ensures var all := s.draft + AllTokens(s.split, st.frozen);
      exists front :: front + ContextOf(s, st) == all && |ContextOf(s, st)| == if |all| < 24 then |all| else 24
  {
    var all := s.draft + AllTokens(s.split, st.frozen);
    var front := all[..|all| - |ContextOf(s, st)|];
    assert front + ContextOf(s, st) == all;
  }

  /** The tokens of the frozen text are those of its words, one after the other. */
  lemma {:induction false} TokensAppend(split: Tokenizer, a: seq<string>, b: seq<string>)
    ensures AllTokens(split, a + b) == AllTokens(split, a) + AllTokens(split, b)
    decreases |b|
  {
    if b == [] {
      assert a + b == a && AllTokens(split, a) + [] == AllTokens(split, a);
    } else {
      var init, w := b[..|b| - 1], b[|b| - 1];
      TokensAppend(split, a, init);
      assert (a + b)[..|a + b| - 1] == a + init;
      Text.Associative(AllTokens(split, a), AllTokens(split, init), split(w));
    }
  }

  lemma TokensOfWord(split: Tokenizer, w: string)
    ensures AllTokens(split, [w]) == split(w)
  {
    assert [w][..0] == [] && [] + split(w) == split(w);
  }

  /** What is frozen and what is live decorate exactly the words said. */
  ghost predicate Faithful(s: Session, st: State, said: seq<string>) {
    && |st.live| == |st.liveRaw| <= 2 * KEEP_LIVE
    && |st.frozen| + |st.live| == |said|
    && st.liveRaw == said[|st.frozen|..]
    && AllDecorate(s.k, st.frozen, said[..|st.frozen|])
    && AllDecorate(s.k, st.live, st.liveRaw)
    && NoMarks(said)
  }

  lemma AddIsFaithful(s: Session, st: State, said: seq<string>, utterance: seq<string>)
    requires KeepsWords(s.k, s.decorate) && Faithful(s, st, said) && NoMarks(utterance)
    ensures Faithful(s, Add(s, st, utterance), said + utterance)
    ensures st.frozen <= Add(s, st, utterance).frozen
  {
    var all := said + utterance;
    var raw := st.liveRaw + utterance;
    var live := s.decorate(ContextOf(s, st), raw);
    assert all[..|st.frozen|] == said[..|st.frozen|];
    assert all[|st.frozen|..] == raw;
    assert NoMarks(all);
    assert forall i :: 0 <= i < |raw| ==> raw[i] == all[|st.frozen| + i];
    FrozenIsFaithful(s, st, all, raw, live);
  }

  lemma FrozenIsFaithful(s: Session, st: State, all: seq<string>, raw: seq<string>, live: seq<string>)
    requires |st.frozen| + |raw| == |all| && raw == all[|st.frozen|..] && NoMarks(all)
    requires AllDecorate(s.k, st.frozen, all[..|st.frozen|]) && AllDecorate(s.k, live, raw)
    ensures Faithful(s, Frozen(st, raw, live), all)
  {
    if |raw| > 2 * KEEP_LIVE {
      Freeze(s.k, st.frozen, live, all, |raw| - KEEP_LIVE);
    }
  }

  /** Freezing the front of what is live. */
  lemma Freeze(k: Case, frozen: seq<string>, live: seq<string>, said: seq<string>, cut: nat)
    requires cut <= |live| && |frozen| + |live| == |said|
    requires AllDecorate(k, frozen, said[..|frozen|]) && AllDecorate(k, live, said[|frozen|..])
    ensures AllDecorate(k, frozen + live[..cut], said[..|frozen| + cut])
    ensures said[|frozen|..][cut..] == said[|frozen| + cut..]
    ensures AllDecorate(k, live[cut..], said[|frozen| + cut..])
  {
    var n := |frozen|;
    var out := frozen + live[..cut];
    forall i | 0 <= i < |out| ensures Decorates(k, out[i], said[..n + cut][i]) {
      if i < n {
        assert said[..n][i] == said[i] && Decorates(k, frozen[i], said[..n][i]);
      } else {
        assert said[n..][i - n] == said[i] && Decorates(k, live[i - n], said[n..][i - n]);
      }
    }
    forall i | 0 <= i < |live| - cut ensures Decorates(k, live[cut..][i], said[n + cut..][i]) {
      assert said[n..][cut + i] == said[n + cut + i] && Decorates(k, live[cut + i], said[n..][cut + i]);
    }
  }

  /**
   * Word conservation over a whole session, for any tagger: frozen and live
   * together are the words of all utterances up to case, each with at most one
   * mark attached, and at most 2 * KEEP_LIVE of them are live.
   */
  lemma {:induction false} SessionKeepsWords(s: Session, utterances: seq<seq<string>>)
    requires KeepsWords(s.k, s.decorate) && forall i :: 0 <= i < |utterances| ==> NoMarks(utterances[i])
    ensures Faithful(s, Run(s, utterances), Said(utterances))
    ensures AllDecorate(s.k, Run(s, utterances).frozen + Run(s, utterances).live, Said(utterances))
  {
    if utterances != [] {
      var n := |utterances| - 1;
      SessionKeepsWords(s, utterances[..n]);
      AddIsFaithful(s, Run(s, utterances[..n]), Said(utterances[..n]), utterances[n]);
    }
    WholeDecorates(s, Run(s, utterances), Said(utterances));
  }

  lemma WholeDecorates(s: Session, st: State, said: seq<string>)
    requires Faithful(s, st, said)
    ensures AllDecorate(s.k, st.frozen + st.live, said)
  {
    Freeze(s.k, st.frozen, st.live, said, |st.live|);
    assert st.live[..|st.live|] == st.live && said[..|said|] == said;
  }

  /** Frozen text never changes again: it only grows at the end. */
  lemma {:induction false} FrozenOnlyGrows(s: Session, utterances: seq<seq<string>>, i: nat)
    requires i <= |utterances|
    ensures Run(s, utterances[..i]).frozen <= Run(s, utterances).frozen
  {
    if i == |utterances| {
      assert utterances[..i] == utterances;
    } else {
      var n := |utterances| - 1;
      FrozenOnlyGrows(s, utterances[..n], i);
      assert utterances[..n][..i] == utterances[..i];
    }
  }

  class Transcript {
    const tagger: Tagger
    const session: Session
    var frozen: seq<string>
    var live: seq<string>
    var liveRaw: seq<string>

    constructor (k: Case, tagger: Tagger, split: Tokenizer, draft: string)
      ensures this.tagger == tagger
      ensures session == Session(k, DecorateWith(k, tagger), split, Tail(split(draft), CONTEXT))
      ensures Now() == State([], [], [])
    {
      this.tagger := tagger;
      session := Session(k, DecorateWith(k, tagger), split, Tail(split(draft), CONTEXT));
      frozen, live, liveRaw := [], [], [];
    }

    function Now(): State
      reads this
    {
      State(frozen, live, liveRaw)
    }

    /** The tokens of the draft and the frozen text, cut to the last few. */
    method ReadContext() returns (context: seq<string>)
      ensures context == ContextOf(session, Now())
    {
      context := session.draft;
      for i := 0 to |frozen|
        invariant context == session.draft + AllTokens(session.split, frozen[..i])
      {
        assert frozen[..i + 1][..i] == frozen[..i];
        Text.Associative(session.draft, AllTokens(session.split, frozen[..i]), session.split(frozen[i]));
        context := context + session.split(frozen[i]);
      }
      assert frozen[..|frozen|] == frozen;
      context := Tail(context, CONTEXT);
    }

    /** `add`; `said` are the words of the utterances before. */
    method AddUtterance(utterance: seq<string>, ghost said: seq<string>)
      requires Lawful(session.k) && Answers(tagger) && session.decorate == DecorateWith(session.k, tagger)
      requires NoMarks(utterance)
      requires Faithful(session, Now(), said)
      modifies this
      ensures Now() == Add(session, old(Now()), utterance)
      ensures Faithful(session, Now(), said + utterance)
    {
      AddMayBegin(session, Now(), tagger, said, utterance);
      TakeIn(utterance);
      FreezeFront();
    }

    /** Everything still live is decorated again, the new words with it. */
    method TakeIn(utterance: seq<string>)
      requires Lawful(session.k) && Answers(tagger) && session.decorate == DecorateWith(session.k, tagger)
      requires NoMarks(liveRaw + utterance)
      modifies this
      ensures frozen == old(frozen) && liveRaw == old(liveRaw) + utterance && |live| == |liveRaw|
      ensures live == session.decorate(ContextOf(session, old(Now())), liveRaw)
    {
      var context := ReadContext();
      liveRaw := liveRaw + utterance;
      live := Decorate(session.k, tagger, context, liveRaw);
    }

    method FreezeFront()
      requires |live| == |liveRaw|
      modifies this
      ensures Now() == Frozen(old(Now()), old(liveRaw), old(live))
    {
      if |liveRaw| > 2 * KEEP_LIVE {
        var cut := |liveRaw| - KEEP_LIVE;
        frozen := frozen + live[..cut];
        live, liveRaw := live[cut..], liveRaw[cut..];
      }
    }

    lemma AddMayBegin(s: Session, st: State, tagger: Tagger, said: seq<string>, utterance: seq<string>)
      requires Lawful(s.k) && s.decorate == DecorateWith(s.k, tagger)
      requires Faithful(s, st, said) && NoMarks(utterance)
      ensures Faithful(s, Add(s, st, utterance), said + utterance) && NoMarks(st.liveRaw + utterance)
    {
      AnyTaggerKeepsWords(s.k, tagger);
      AddIsFaithful(s, st, said, utterance);
      RawHasNoMarks(s, st, said, utterance);
    }

    lemma RawHasNoMarks(s: Session, st: State, said: seq<string>, utterance: seq<string>)
      requires Faithful(s, st, said) && NoMarks(utterance)
      ensures NoMarks(st.liveRaw + utterance)
    {
      forall i | 0 <= i < |st.liveRaw + utterance| ensures !IsMark((st.liveRaw + utterance)[i]) {
        if i < |st.liveRaw| {
          assert st.liveRaw[i] == said[|st.frozen| + i];
        }
      }
    }
  }
}
