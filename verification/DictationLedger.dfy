/**
 * docker/sherpa-asr/server.py: what a session must send. The events of a run are counted, and the log,
 * the utterance and the segments still to come are read off the counts.
 */
module DictationLedger {
  import opened Dictation

  /**
   * How many samples came, segments were queued or flushed, segments were decoded and how many of them had
   * text, finals and "done" were sent, and stops came.
   */
  datatype Tally = Tally(heard: nat, queued: nat, decoded: nat, texts: nat, finals: nat, dones: nat, stops: nat)

  const NOTHING := Tally(0, 0, 0, 0, 0, 0, 0)

  /** A message completes a window and is not one too many: the detector is asked. */
  predicate Asked(s: State, pcm: seq<Sample>) {
    s.received + |pcm| <= 600 * 16000 && |s.buf| + |pcm| - s.offset >= 512
  }

  function Counted(t: Tally, s: State, e: Event): Tally {
    match e
    case Audio(pcm, _, queued, _) =>
      t.(heard := t.heard + |pcm|, queued := t.queued + if Asked(s, pcm) then queued else 0)
    case Stop(flushed) => t.(stops := t.stops + 1, queued := t.queued + flushed)
    case FinalDecoded(hasText) => t.(decoded := t.decoded + 1, texts := t.texts + if hasText then 1 else 0)
    case FinalSent => t.(finals := t.finals + 1)
    case DoneSent => t.(dones := t.dones + 1)
    case OtherText => t
    case PartialDecoded(_) => t
    case Refused => t
    case Disconnect => t
  }

  function TallyOf(states: seq<State>, events: seq<Event>, n: nat): Tally
    requires n <= |events| && n <= |states|
  {
    if n == 0 then NOTHING else Counted(TallyOf(states, events, n - 1), states[n - 1], events[n - 1])
  }

  /** What an event sends, by the counts before it. */
  function Sent(t: Tally, s: State, e: Event): seq<Message> {
    var closed := t.decoded + t.dones;
    match e
    case Audio(pcm, _, _, _) => if t.heard + |pcm| > 600 * 16000 then [TooLong(closed)] else []
    case FinalSent => [Final(if closed > 0 then closed - 1 else 0)]
    case DoneSent => [Done(closed)]
    case PartialDecoded(hasText) =>
      if hasText && s.tasks != [] && s.tasks[|s.tasks| - 1].of == s.utterance then [Partial(s.utterance)] else []
    case Stop(_) => []
    case FinalDecoded(_) => []
    case OtherText => []
    case Refused => []
    case Disconnect => []
  }

  function LogOf(states: seq<State>, events: seq<Event>, n: nat): seq<Message>
    requires n <= |events| && n <= |states|
  {
    if n == 0 then []
    else LogOf(states, events, n - 1) + Sent(TallyOf(states, events, n - 1), states[n - 1], events[n - 1])
  }

  function One(b: bool): nat {
    if b then 1 else 0
  }

  /** A stop is being answered. */
  predicate Stopping(p: Place) {
    (p.DecodingFinal? && p.stop) || (p.SendingFinal? && p.stop) || p.SendingDone?
  }

  /** The state as the counts have it, while the session lasts. */
  predicate Balanced(s: State, t: Tally) {
    && s.received == t.heard
    && (!s.place.Closed? ==>
          && s.utterance == t.decoded + t.dones + One(s.place.SendingDone?)
          && t.queued == t.decoded + s.segments + One(s.place.DecodingFinal?)
          && t.texts == t.finals + One(s.place.SendingFinal?)
          && t.stops == t.dones + One(Stopping(s.place))
          && (s.place.SendingFinal? || s.place.SendingDone? ==> s.place.closes + 1 == s.utterance))
  }

  lemma AudioBalances(s: State, t: Tally, pcm: seq<Sample>, detected: bool, queued: nat, due: bool)
    requires Kept(s) && s.place.Waiting? && Balanced(s, t)
    ensures Balanced(OnAudio(s, pcm, detected, queued, due), Counted(t, s, Audio(pcm, detected, queued, due)))
  {
    if s.received + |pcm| <= MAX_SAMPLES {
      OnAudioFits(s, pcm, detected, queued, due);
    }
  }

  lemma StepBalances(s: State, t: Tally, e: Event)
    requires Kept(s) && Enabled(s, e) && Balanced(s, t)
    ensures Balanced(Apply(s, e), Counted(t, s, e))
  {
    match e
    case Audio(pcm, detected, queued, due) => AudioBalances(s, t, pcm, detected, queued, due);
    case Stop(flushed) =>
    case OtherText =>
    case FinalDecoded(hasText) =>
    case FinalSent =>
    case DoneSent =>
    case PartialDecoded(hasText) =>
    case Refused =>
    case Disconnect =>
  }

  /** One step sends exactly what the counts say. */
  lemma StepSends(s: State, t: Tally, e: Event)
    requires Kept(s) && Enabled(s, e) && Balanced(s, t)
    ensures Apply(s, e).log == s.log + Sent(t, s, e)
  {
    match e
    case Audio(pcm, detected, queued, due) =>
      if s.received + |pcm| <= MAX_SAMPLES { OnAudioFits(s, pcm, detected, queued, due); }
    case Stop(flushed) =>
    case OtherText =>
    case FinalDecoded(hasText) =>
    case FinalSent =>
    case DoneSent =>
    case PartialDecoded(hasText) =>
    case Refused =>
    case Disconnect =>
  }

  lemma MoveIsExact(s: State, t: Tally, e: Event, next: State)
    requires Kept(s) && Moves(s, e, next) && Balanced(s, t)
    ensures next.log == s.log + Sent(t, s, e) && Balanced(next, Counted(t, s, e))
  {
    StepSends(s, t, e);
    StepBalances(s, t, e);
  }

  lemma MoveInRun(states: seq<State>, events: seq<Event>, n: nat, t: Tally)
    requires IsRun(states, events) && n + 1 < |states| && Balanced(states[n], t)
    ensures states[n + 1].log == states[n].log + Sent(t, states[n], events[n])
    ensures Balanced(states[n + 1], Counted(t, states[n], events[n]))
  {
    EveryRunIsSafe(states, events, n);
    MoveIsExact(states[n], t, events[n], states[n + 1]);
  }

  lemma TallyGrows(states: seq<State>, events: seq<Event>, n: nat)
    requires n < |events| && n < |states|
    ensures TallyOf(states, events, n + 1) == Counted(TallyOf(states, events, n), states[n], events[n])
  {
  }

  lemma StartBalances(states: seq<State>, events: seq<Event>)
    requires IsRun(states, events)
    ensures Balanced(states[0], NOTHING) && states[0].log == []
  {
  }

  /** The counts balance after every step of every run. */
  lemma {:induction false} CountsBalance(states: seq<State>, events: seq<Event>, n: nat)
    requires IsRun(states, events) && n < |states|
    ensures Balanced(states[n], TallyOf(states, events, n))
  {
    if n == 0 {
      StartBalances(states, events);
    } else {
      var m := n - 1;
      CountsBalance(states, events, m);
      MoveInRun(states, events, m, TallyOf(states, events, m));
      TallyGrows(states, events, m);
    }
  }

  lemma LogGrows(states: seq<State>, events: seq<Event>, n: nat)
    requires n < |events| && n < |states|
    ensures LogOf(states, events, n + 1)
         == LogOf(states, events, n) + Sent(TallyOf(states, events, n), states[n], events[n])
  {
  }

  /**
   * What every run sends, read off its events. The log is what the events send, in their order and once
   * each: a final for each one sent, with the utterance it closes, a "done" for each, "too long" with the
   * message that is one too many, and a partial with each decode of the utterance in progress that has
   * text.
   */
  lemma {:induction false} LogIsExact(states: seq<State>, events: seq<Event>, n: nat)
    requires IsRun(states, events) && n < |states|
    ensures states[n].log == LogOf(states, events, n)
  {
    if n == 0 {
      StartBalances(states, events);
    } else {
      var m := n - 1;
      LogIsExact(states, events, m);
      CountsBalance(states, events, m);
      MoveInRun(states, events, m, TallyOf(states, events, m));
      LogGrows(states, events, m);
    }
  }

  /**
   * Whenever the loop waits for a message nothing is owed: every segment queued or flushed was decoded,
   * every text decoded was sent as a final, every stop was answered with "done", and the utterance is the
   * number of segments and stops so far.
   */
  lemma NothingIsOwedWhileWaiting(states: seq<State>, events: seq<Event>, n: nat)
    requires IsRun(states, events) && n < |states| && states[n].place.Waiting?
    ensures var t := TallyOf(states, events, n);
      t.queued == t.decoded && t.texts == t.finals && t.stops == t.dones && states[n].utterance == t.decoded + t.stops
  {
    CountsBalance(states, events, n);
    EveryRunIsSafe(states, events, n);
  }

  // ----- the messages in the log -----

  function FinalsIn(log: seq<Message>): nat {
    if log == [] then 0 else FinalsIn(log[..|log| - 1]) + One(log[|log| - 1].Final?)
  }

  function DonesIn(log: seq<Message>): nat {
    if log == [] then 0 else DonesIn(log[..|log| - 1]) + One(log[|log| - 1].Done?)
  }

  lemma CountOneMore(log: seq<Message>, m: Message)
    ensures FinalsIn(log + [m]) == FinalsIn(log) + One(m.Final?) && DonesIn(log + [m]) == DonesIn(log) + One(m.Done?)
  {
    assert (log + [m])[..|log|] == log;
  }

  lemma SentCounts(log: seq<Message>, t: Tally, s: State, e: Event)
    ensures FinalsIn(log + Sent(t, s, e)) + t.finals == FinalsIn(log) + Counted(t, s, e).finals
    ensures DonesIn(log + Sent(t, s, e)) + t.dones == DonesIn(log) + Counted(t, s, e).dones
  {
    var sent := Sent(t, s, e);
    if sent == [] {
      assert log + sent == log;
    } else {
      CountOneMore(log, sent[0]);
      assert sent == [sent[0]];
    }
  }

  /** There are as many finals and "done" in the log as were sent. */
  lemma {:induction false} LogHoldsAll(states: seq<State>, events: seq<Event>, n: nat)
    requires n <= |events| && n <= |states|
    ensures FinalsIn(LogOf(states, events, n)) == TallyOf(states, events, n).finals
    ensures DonesIn(LogOf(states, events, n)) == TallyOf(states, events, n).dones
  {
    if n > 0 {
      LogHoldsAll(states, events, n - 1);
      SentCounts(LogOf(states, events, n - 1), TallyOf(states, events, n - 1), states[n - 1], events[n - 1]);
    }
  }

  /** Every text of a segment is in the log when the loop waits again, and one "done" for every stop. */
  lemma AllTextsAreSent(states: seq<State>, events: seq<Event>, n: nat)
    requires IsRun(states, events) && n < |states| && states[n].place.Waiting?
    ensures FinalsIn(states[n].log) == TallyOf(states, events, n).texts
    ensures DonesIn(states[n].log) == TallyOf(states, events, n).stops
  {
    LogIsExact(states, events, n);
    LogHoldsAll(states, events, n);
    NothingIsOwedWhileWaiting(states, events, n);
  }

  // ----- the loop gets back to waiting -----

  /** Steps of the loop still to be made before it waits again. */
  function Owed(s: State): nat {
    match s.place
    case DecodingFinal(_) => 3 * s.segments + 4
    case SendingFinal(_, _) => 3 * s.segments + 3
    case SendingDone(_) => 1
    case Waiting => 0
    case Refusing => 0
    case Closed => 0
  }

  /** Each step of the loop that is not a wait brings it nearer to one. */
  lemma LoopComesBack(s: State, e: Event)
    requires Kept(s) && Enabled(s, e)
    requires (s.place.DecodingFinal? && e.FinalDecoded?) || (s.place.SendingFinal? && e.FinalSent?)
             || (s.place.SendingDone? && e.DoneSent?)
    ensures Owed(Apply(s, e)) < Owed(s)
    ensures !Apply(s, e).place.Refusing? && !Apply(s, e).place.Closed?
  {
  }

  // ----- partial decodes -----

  /**
   * A partial decode begins with an audio message exactly if there is speech, none is running, one is
   * due, the message is not one too many, and no segment is queued with it.
   */
  lemma PartialBeginsIff(s: State, pcm: seq<Sample>, detected: bool, queued: nat, due: bool)
    requires Kept(s) && s.place.Waiting?
    ensures var t := Apply(s, Audio(pcm, detected, queued, due));
      t.tasks == if s.received + |pcm| <= 600 * 16000 && !(Asked(s, pcm) && queued > 0)
                    && (s.speaking || (Asked(s, pcm) && detected)) && !Running(s.tasks) && due
                 then s.tasks + [Task(s.utterance, true)] else s.tasks
  {
    if s.received + |pcm| <= MAX_SAMPLES {
      OnAudioFits(s, pcm, detected, queued, due);
    }
  }

  // ----- the buffer -----

  /** Of silence exactly ten windows are kept; while someone speaks nothing is dropped. */
  lemma TrimIsExact(s: State)
    requires s.offset <= |s.buf| < s.offset + WINDOW
    ensures var t := Trim(s);
      && t == s.(buf := t.buf, offset := t.offset)
      && t.buf == (if s.speaking || |s.buf| <= 5120 then s.buf else s.buf[|s.buf| - 5120..])
      && |t.buf| - t.offset == |s.buf| - s.offset
  {
  }

  /** When the loop comes back from sending finals it waits with an empty buffer, and no one speaks. */
  lemma ComesBackEmpty(s: State, e: Event)
    requires Kept(s) && Enabled(s, e) && !s.place.Waiting? && Apply(s, e).place.Waiting?
    ensures var t := Apply(s, e); t.buf == [] && t.offset == 0 && !t.speaking && t.segments == 0
  {
  }
}
