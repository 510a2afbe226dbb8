/**
 * docker/sherpa-asr/server.py: one live dictation session as the interleaved
 * steps of its receive loop and of the partial-decode tasks. A step runs up to
 * the next await; a check followed at once by a send is one step.
 */
module Dictation {

  const WINDOW := 512
  const LEAD_IN := 10 * WINDOW
  const MAX_SAMPLES := 600 * 16000

  type Sample = real

  /**
   * What was sent to the client. A partial carries the utterance it is of; a
   * final and "done" carry the utterance they close, "too long" the one in progress.
   */
  datatype Message = Partial(of: nat) | Final(closes: nat) | Done(closes: nat) | TooLong(during: nat)

  /** A partial decode. */
  datatype Task = Task(of: nat, running: bool)

  /**
   * Where the receive loop is: waiting for a message, decoding a segment in
   * send_finals, about to send its final, about to send "done", about to close
   * the session after "too long", or gone.
   */
  datatype Place =
    | Waiting
    | DecodingFinal(stop: bool)
    | SendingFinal(stop: bool, closes: nat)
    | SendingDone(closes: nat)
    | Refusing
    | Closed

  datatype State = State(
    buf: seq<Sample>, offset: nat, speaking: bool, utterance: nat,
    tasks: seq<Task>,
    segments: nat,
    received: nat, fed: nat, lost: nat, resets: nat,
    place: Place,
    log: seq<Message>)

  const START := State([], 0, false, 0, [], 0, 0, 0, 0, 0, Waiting, [])

  // ----- the feed loop -----

  /** How far the VAD gets: whole windows only. */
  function FedUpTo(offset: nat, length: nat): (r: nat)
    ensures offset <= r && r % WINDOW == offset % WINDOW
    ensures offset <= length ==> r <= length < r + WINDOW
    decreases length - offset
  {
    if offset + WINDOW <= length then FedUpTo(offset + WINDOW, length) else offset
  }

  /** The feed loop; `detects` is the VAD's answer after each window. */
  method FeedLoop(buf: seq<Sample>, offset0: nat, speaking0: bool, detects: nat -> bool)
    returns (offset: nat, speaking: bool, windows: seq<seq<Sample>>)
    requires offset0 <= |buf|
    ensures offset == FedUpTo(offset0, |buf|)
    ensures speaking <==> speaking0 || exists k :: 0 <= k < |windows| && detects(k)
    ensures Join(windows) == buf[offset0..offset] && offset - offset0 == WINDOW * |windows|
    ensures forall k :: 0 <= k < |windows| ==> |windows[k]| == WINDOW
  {
    offset, speaking, windows := offset0, speaking0, [];
    while offset + WINDOW <= |buf|
      invariant offset0 <= offset <= |buf| && FedUpTo(offset, |buf|) == FedUpTo(offset0, |buf|)
      invariant speaking <==> speaking0 || exists k :: 0 <= k < |windows| && detects(k)
      invariant Join(windows) == buf[offset0..offset] && offset - offset0 == WINDOW * |windows|
      invariant forall k :: 0 <= k < |windows| ==> |windows[k]| == WINDOW
    {
      OneMoreWindow(buf, offset0, offset, windows);
      windows := windows + [buf[offset..offset + WINDOW]];
      if !speaking && detects(|windows| - 1) {
        speaking := true;
      }
      offset := offset + WINDOW;
    }
  }

  /** The samples of consecutive windows. */
  function Join(windows: seq<seq<Sample>>): seq<Sample> {
    if windows == [] then [] else Join(windows[..|windows| - 1]) + windows[|windows| - 1]
  }

  lemma OneMoreWindow(buf: seq<Sample>, offset0: nat, offset: nat, windows: seq<seq<Sample>>)
    requires offset0 <= offset && offset + WINDOW <= |buf| && Join(windows) == buf[offset0..offset]
    ensures Join(windows + [buf[offset..offset + WINDOW]]) == buf[offset0..offset + WINDOW]
  {
    assert (windows + [buf[offset..offset + WINDOW]])[..|windows|] == windows;
  }

  // ----- the steps -----

  /** The inputs that decide a step: what arrives, what the VAD and the decoders answer. */
  datatype Event =
    | Audio(pcm: seq<Sample>, detected: bool, queued: nat, due: bool)
    | Stop(flushed: nat)
    | OtherText
    | FinalDecoded(hasText: bool)
    | FinalSent
    | DoneSent
    | PartialDecoded(hasText: bool)
    | Refused
    | Disconnect

  function Running(tasks: seq<Task>): bool {
    tasks != [] && tasks[|tasks| - 1].running
  }

  predicate Enabled(s: State, e: Event) {
    match e
    case Audio(_, _, _, _) => s.place.Waiting?
    case Stop(_) => s.place.Waiting?
    case OtherText => s.place.Waiting?
    case FinalDecoded(_) => s.place.DecodingFinal?
    case FinalSent => s.place.SendingFinal?
    case DoneSent => s.place.SendingDone?
    case Refused => s.place.Refusing?
    case PartialDecoded(_) => !s.place.Closed? && Running(s.tasks)
    case Disconnect => !s.place.Closed?
  }

  /** The buffer is thrown away, its unseen tail with it. */
  function Reset(s: State): State
    requires s.offset <= |s.buf|
  {
    s.(buf := [], offset := 0, speaking := false,
       lost := s.lost + (|s.buf| - s.offset), resets := s.resets + 1)
  }

  /** The top of the loop in send_finals: the next segment, or what follows the loop. */
  function NextSegment(s: State, stop: bool): State
    requires s.offset <= |s.buf|
  {
    if s.segments > 0 then s.(segments := s.segments - 1, place := DecodingFinal(stop))
    else if stop then s.(utterance := s.utterance + 1, place := SendingDone(s.utterance))
    else Reset(s.(place := Waiting))
  }

  /** Silence before speech is dropped but for a short lead-in. */
  function Trim(s: State): State
    requires s.offset <= |s.buf| < s.offset + WINDOW
  {
    if !s.speaking && |s.buf| > LEAD_IN then
      var drop := |s.buf| - LEAD_IN;
      s.(buf := s.buf[drop..], offset := s.offset - drop)
    else s
  }

  function StartPartial(s: State, due: bool): State {
    if s.speaking && !Running(s.tasks) && due
    then s.(tasks := s.tasks + [Task(s.utterance, true)]) else s
  }

  function Cancel(tasks: seq<Task>): seq<Task> {
    if Running(tasks) then tasks[|tasks| - 1 := tasks[|tasks| - 1].(running := false)] else tasks
  }

  /** The loop is left and the decode in flight cancelled. */
  function Close(s: State): State {
    s.(place := Closed, tasks := Cancel(s.tasks))
  }

  /** The message joins the buffer and the VAD gets every whole window. */
  function Fed(s: State, pcm: seq<Sample>, detected: bool, queued: nat): State
    requires s.offset <= |s.buf|
  {
    var buf := s.buf + pcm;
    var offset := FedUpTo(s.offset, |buf|);
    s.(buf := buf, offset := offset, fed := s.fed + (offset - s.offset),
       speaking := s.speaking || (offset > s.offset && detected),
       segments := if offset > s.offset then s.segments + queued else s.segments)
  }

  /** Finals first; without any, the trim and perhaps a partial decode. */
  function AfterFeed(s: State, due: bool): State
    requires s.offset <= |s.buf| < s.offset + WINDOW
  {
    if s.segments > 0 then NextSegment(s, false) else StartPartial(Trim(s), due)
  }

  function OnAudio(s: State, pcm: seq<Sample>, detected: bool, queued: nat, due: bool): State
    requires s.offset <= |s.buf|
  {
    var r := s.(received := s.received + |pcm|);
    if r.received > MAX_SAMPLES
    then r.(log := s.log + [TooLong(s.utterance)], lost := s.lost + |pcm|, place := Refusing)
    else AfterFeed(Fed(r, pcm, detected, queued), due)
  }

  function Apply(s: State, e: Event): State
    requires Enabled(s, e) && s.offset <= |s.buf|
  {
    match e
    case Audio(pcm, detected, queued, due) => OnAudio(s, pcm, detected, queued, due)
    case Stop(flushed) => NextSegment(s.(segments := s.segments + flushed), true)
    case OtherText => s
    case FinalDecoded(hasText) =>
      var t := s.(utterance := s.utterance + 1);
      if hasText then t.(place := SendingFinal(s.place.stop, s.utterance)) else NextSegment(t, s.place.stop)
    case FinalSent =>
      NextSegment(s.(log := s.log + [Final(s.place.closes)]), s.place.stop)
    case DoneSent =>
      Reset(s.(log := s.log + [Done(s.place.closes)], place := Waiting))
    case PartialDecoded(hasText) =>
      var task := s.tasks[|s.tasks| - 1];
      s.(tasks := Cancel(s.tasks),
         log := if hasText && task.of == s.utterance then s.log + [Partial(task.of)] else s.log)
    case Refused => Close(s)
    case Disconnect => Close(s)
  }

  method FeedMessage(s: State, pcm: seq<Sample>, detects: nat -> bool, queued: nat) returns (t: State, detected: bool)
    requires s.offset <= |s.buf|
    ensures t == Fed(s, pcm, detected, queued)
  {
    var buf := s.buf + pcm;
    var offset, speaking, windows := FeedLoop(buf, s.offset, s.speaking, detects);
    detected := speaking;
    var segments := if offset > s.offset then s.segments + queued else s.segments;
    t := s.(buf := buf, offset := offset, fed := s.fed + (offset - s.offset),
           speaking := speaking, segments := segments);
  }

  // ----- what every interleaving keeps -----

  predicate Closing(m: Message) {
    m.Final? || m.Done?
  }

  /**
   * Position of a message in the only order a client may see: the partials of
   * utterance u, then the message that closes u.
   */
  function Rank(m: Message): nat {
    match m
    case Partial(of) => 2 * of
    case Final(closes) => 2 * closes + 1
    case Done(closes) => 2 * closes + 1
    case TooLong(during) => 2 * during
  }

  /**
   * n may come after m: no partial of an utterance that m closed, no utterance
   * closed twice, and after "too long" only partials.
   */
  predicate MayFollow(m: Message, n: Message) {
    && (m.TooLong? ==> n.Partial?)
    && (Rank(m) < Rank(n) || (Rank(m) == Rank(n) && !Closing(m) && !Closing(n)))
  }

  ghost predicate InOrder(log: seq<Message>) {
    forall i, j :: 0 <= i < j < |log| ==> MayFollow(log[i], log[j])
  }

  /** No message so far ranks above the utterance in progress. */
  function Bound(s: State): nat {
    if s.place.SendingFinal? || s.place.SendingDone? then 2 * s.place.closes else 2 * s.utterance
  }

  ghost predicate LogKept(s: State) {
    && InOrder(s.log)
    && (forall i :: 0 <= i < |s.log| ==> Rank(s.log[i]) <= Bound(s))
    && (forall i :: 0 <= i < |s.log| && s.log[i].TooLong? ==>
          (s.place.Refusing? || s.place.Closed?) && s.log[i].during == s.utterance)
  }

  ghost predicate TasksKept(s: State) {
    && (forall i :: 0 <= i < |s.tasks| - 1 ==> !s.tasks[i].running)
    && (forall i :: 0 <= i < |s.tasks| ==> 2 * s.tasks[i].of <= Bound(s))
    && (s.place.Closed? ==> !Running(s.tasks))
    && (s.place.SendingFinal? || s.place.SendingDone? ==> s.place.closes < s.utterance)
  }

  ghost predicate AudioKept(s: State) {
    && s.offset <= |s.buf| < s.offset + WINDOW
    && s.received == s.fed + s.lost + (|s.buf| - s.offset)
    && (!s.place.Refusing? && !s.place.Closed? ==> s.lost <= s.resets * (WINDOW - 1))
    && (s.place.SendingDone? ==> s.segments == 0)
    && (s.place.Waiting? ==> s.segments == 0 && (s.speaking || |s.buf| <= LEAD_IN))
  }

  ghost predicate Kept(s: State) {
    LogKept(s) && TasksKept(s) && AudioKept(s)
  }

  lemma SayMore(s: State, m: Message)
    requires LogKept(s) && !s.place.Closed?
    requires m.Partial? || !s.place.Refusing?
    requires Rank(m) > Bound(s) || (Rank(m) == Bound(s) && !Closing(m))
    ensures InOrder(s.log + [m])
  {
    var log := s.log + [m];
    forall i, j | 0 <= i < j < |log| ensures MayFollow(log[i], log[j]) {
      if j < |s.log| {
        assert MayFollow(s.log[i], s.log[j]);
      } else {
        assert Rank(s.log[i]) <= Bound(s);
      }
    }
  }

  lemma NextSegmentKeeps(s: State, stop: bool)
    requires InOrder(s.log)
    requires forall i :: 0 <= i < |s.log| ==> Rank(s.log[i]) <= 2 * s.utterance && !s.log[i].TooLong?
    requires forall i :: 0 <= i < |s.tasks| - 1 ==> !s.tasks[i].running
    requires forall i :: 0 <= i < |s.tasks| ==> s.tasks[i].of <= s.utterance
    requires s.offset <= |s.buf| < s.offset + WINDOW && s.received == s.fed + s.lost + (|s.buf| - s.offset)
    requires s.lost <= s.resets * (WINDOW - 1)
    ensures Kept(NextSegment(s, stop))
  {
  }

  lemma TooLongKeeps(s: State, n: nat)
    requires Kept(s) && s.place.Waiting?
    ensures Kept(s.(received := s.received + n, log := s.log + [TooLong(s.utterance)], lost := s.lost + n,
                    place := Refusing))
  {
    SayMore(s, TooLong(s.utterance));
  }

  lemma StartPartialKeeps(s: State, due: bool)
    requires Kept(s) && s.place.Waiting?
    ensures Kept(StartPartial(s, due))
  {
  }

  /**
   * Kept after the feed loop, except that segments may be queued and the
   * buffer may still hold too much silence.
   */
  ghost predicate KeptButQueued(s: State) {
    && s.place.Waiting? && LogKept(s) && TasksKept(s)
    && s.offset <= |s.buf| < s.offset + WINDOW
    && s.received == s.fed + s.lost + (|s.buf| - s.offset)
    && s.lost <= s.resets * (WINDOW - 1)
  }

  lemma FedKeeps(s: State, pcm: seq<Sample>, detected: bool, queued: nat)
    requires Kept(s) && s.place.Waiting?
    ensures KeptButQueued(Fed(s.(received := s.received + |pcm|), pcm, detected, queued))
  {
  }

  lemma AfterFeedKeeps(s: State, due: bool)
    requires KeptButQueued(s)
    ensures Kept(AfterFeed(s, due))
  {
    if s.segments > 0 {
      NextSegmentKeeps(s, false);
    } else {
      TrimKeeps(s);
      StartPartialKeeps(Trim(s), due);
    }
  }

  lemma OnAudioFits(s: State, pcm: seq<Sample>, detected: bool, queued: nat, due: bool)
    requires s.offset <= |s.buf| && s.received + |pcm| <= MAX_SAMPLES
    ensures var t := Fed(s.(received := s.received + |pcm|), pcm, detected, queued);
      && t.offset <= |t.buf| < t.offset + WINDOW
      && OnAudio(s, pcm, detected, queued, due) == AfterFeed(t, due)
  {
  }

  lemma KeptAlike(s: State, t: State)
    requires s == t && Kept(s)
    ensures Kept(t)
  {
  }

  lemma AudioKeeps(s: State, pcm: seq<Sample>, detected: bool, queued: nat, due: bool)
    requires Kept(s) && s.place.Waiting?
    ensures Kept(OnAudio(s, pcm, detected, queued, due))
  {
    if s.received + |pcm| > MAX_SAMPLES {
      TooLongKeeps(s, |pcm|);
    } else {
      FitAudioKeeps(s, Fed(s.(received := s.received + |pcm|), pcm, detected, queued), pcm, detected, queued, due);
    }
  }

  lemma FitAudioKeeps(s: State, t: State, pcm: seq<Sample>, detected: bool, queued: nat, due: bool)
    requires Kept(s) && s.place.Waiting? && s.received + |pcm| <= MAX_SAMPLES
    requires t == Fed(s.(received := s.received + |pcm|), pcm, detected, queued)
    ensures Kept(OnAudio(s, pcm, detected, queued, due))
  {
    OnAudioFits(s, pcm, detected, queued, due);
    FedKeeps(s, pcm, detected, queued);
    AfterFeedKeeps(t, due);
    KeptAlike(AfterFeed(t, due), OnAudio(s, pcm, detected, queued, due));
  }

  /** What the loop body does with one audio message. */
  method ServeAudio(s: State, pcm: seq<Sample>, detects: nat -> bool, queued: nat, due: bool)
    returns (t: State, detected: bool)
    requires s.offset <= |s.buf|
    ensures t == OnAudio(s, pcm, detected, queued, due)
  {
    t := s.(received := s.received + |pcm|);
    detected := false;
    if t.received > MAX_SAMPLES {
      t := t.(log := t.log + [TooLong(t.utterance)], lost := t.lost + |pcm|, place := Refusing);
      return;
    }
    t, detected := FeedMessage(t, pcm, detects, queued);
    if t.segments > 0 {
      t := NextSegment(t, false);
      return;
    }
    if !t.speaking && |t.buf| > LEAD_IN {
      var drop := |t.buf| - LEAD_IN;
      t := t.(buf := t.buf[drop..], offset := t.offset - drop);
    }
    if t.speaking && !Running(t.tasks) && due {
      t := t.(tasks := t.tasks + [Task(t.utterance, true)]);
    }
  }

  /** A session in order stays so with any audio message. */
  method HandleAudio(s: State, pcm: seq<Sample>, detects: nat -> bool, queued: nat, due: bool)
    returns (t: State, detected: bool)
    requires Kept(s) && s.place.Waiting?
    ensures t == OnAudio(s, pcm, detected, queued, due)
    ensures Kept(t)
  {
    t, detected := ServeAudio(s, pcm, detects, queued, due);
    AudioKeeps(s, pcm, detected, queued, due);
  }

  /** The trim drops only samples the VAD has seen, and leaves the unseen ones. */
  lemma TrimKeeps(s: State)
    requires s.offset <= |s.buf| < s.offset + WINDOW
    ensures var t := Trim(s);
      var drop := |s.buf| - |t.buf|;
      && drop <= s.offset && t.buf == s.buf[drop..] && t.buf[t.offset..] == s.buf[s.offset..]
      && t.offset <= |t.buf| < t.offset + WINDOW
      && (s.speaking || |t.buf| <= LEAD_IN)
  {
  }

  lemma FinalDecodedKeeps(s: State, hasText: bool)
    requires Kept(s) && s.place.DecodingFinal?
    ensures Kept(Apply(s, FinalDecoded(hasText)))
  {
    if !hasText {
      NextSegmentKeeps(s.(utterance := s.utterance + 1), s.place.stop);
    }
  }

  lemma FinalSentKeeps(s: State)
    requires Kept(s) && s.place.SendingFinal?
    ensures Kept(Apply(s, FinalSent))
  {
    SayMore(s, Final(s.place.closes));
    NextSegmentKeeps(s.(log := s.log + [Final(s.place.closes)]), s.place.stop);
  }

  lemma DoneSentKeeps(s: State)
    requires Kept(s) && s.place.SendingDone?
    ensures Kept(Apply(s, DoneSent))
  {
    SayMore(s, Done(s.place.closes));
  }

  lemma PartialDecodedKeeps(s: State, hasText: bool)
    requires Kept(s) && !s.place.Closed? && Running(s.tasks)
    ensures Kept(Apply(s, PartialDecoded(hasText)))
  {
    if hasText && s.tasks[|s.tasks| - 1].of == s.utterance {
      SayMore(s, Partial(s.utterance));
    }
  }

  lemma StepKeeps(s: State, e: Event)
    requires Kept(s) && Enabled(s, e)
    ensures Kept(Apply(s, e))
  {
    match e
    case Audio(pcm, detected, queued, due) => AudioKeeps(s, pcm, detected, queued, due);
    case Stop(flushed) => NextSegmentKeeps(s.(segments := s.segments + flushed), true);
    case OtherText =>
    case FinalDecoded(hasText) => FinalDecodedKeeps(s, hasText);
    case FinalSent => FinalSentKeeps(s);
    case DoneSent => DoneSentKeeps(s);
    case Refused =>
    case PartialDecoded(hasText) => PartialDecodedKeeps(s, hasText);
    case Disconnect =>
  }

  ghost predicate Moves(s: State, e: Event, t: State) {
    s.offset <= |s.buf| && Enabled(s, e) && t == Apply(s, e)
  }

  /** The states of one interleaving from s on, each reached by its event. */
  ghost predicate Follows(s: State, states: seq<State>, events: seq<Event>) {
    && |states| == |events| + 1 && states[0] == s
    && forall i, j :: 0 <= i < j < |states| && j == i + 1 ==> Moves(states[i], events[i], states[j])
  }

  /** The states of one session. */
  ghost predicate IsRun(states: seq<State>, events: seq<Event>) {
    Follows(START, states, events)
  }

  /**
   * Safety over all interleavings: messages come in order, at most one partial
   * decode is in flight, and the audio accounts are exact.
   */
  lemma {:induction false} EveryRunIsSafe(states: seq<State>, events: seq<Event>, i: nat)
    requires IsRun(states, events) && i < |states|
    ensures Kept(states[i])
  {
    if i > 0 {
      EveryRunIsSafe(states, events, i - 1);
      assert Moves(states[i - 1], events[i - 1], states[i]);
      StepKeeps(states[i - 1], events[i - 1]);
    }
  }

  /** The first promise in the terms of the client. */
  lemma NoStalePartial(states: seq<State>, events: seq<Event>, n: nat, i: nat, j: nat)
    requires IsRun(states, events) && n < |states|
    requires var s := states[n]; i < j < |s.log| && Closing(s.log[i]) && s.log[j].Partial?
    ensures states[n].log[j].of > states[n].log[i].closes
  {
    EveryRunIsSafe(states, events, n);
    assert MayFollow(states[n].log[i], states[n].log[j]);
  }

  /** The second: of all the partial decodes ever started only the last may still run. */
  lemma OnePartialInFlight(states: seq<State>, events: seq<Event>, n: nat, i: nat, j: nat)
    requires IsRun(states, events) && n < |states|
    requires var s := states[n]; i < |s.tasks| && j < |s.tasks| && s.tasks[i].running && s.tasks[j].running
    ensures i == j == |states[n].tasks| - 1
  {
    EveryRunIsSafe(states, events, n);
  }

  /**
   * The third: after "too long" nothing is sent but partials of the utterance
   * in progress, which may still be decoding while the session is closed.
   */
  lemma OnlyPartialsAfterTooLong(states: seq<State>, events: seq<Event>, n: nat, i: nat, j: nat)
    requires IsRun(states, events) && n < |states|
    requires var s := states[n]; i < j < |s.log| && s.log[i].TooLong?
    ensures states[n].log[j] == Partial(states[n].log[i].during)
  {
    EveryRunIsSafe(states, events, n);
    assert MayFollow(states[n].log[i], states[n].log[j]);
    assert Rank(states[n].log[j]) <= Bound(states[n]);
  }

  // ----- when a partial can follow "too long" -----

  /** A partial of the utterance in progress is being decoded. */
  predicate Decoding(s: State) {
    Running(s.tasks) && s.tasks[|s.tasks| - 1].of == s.utterance
  }

  /** A refused session sends at most one partial more, and only the one being decoded. */
  lemma {:induction false} RefusedSaysLittle(s: State, states: seq<State>, events: seq<Event>, n: nat)
    requires (s.place.Refusing? || s.place.Closed?) && Follows(s, states, events) && n < |states|
    ensures var t := states[n];
      && (t.place.Refusing? || t.place.Closed?) && t.utterance == s.utterance
      && (Decoding(t) ==> Decoding(s))
      && (t.log == s.log || (Decoding(s) && !Decoding(t) && t.log == s.log + [Partial(s.utterance)]))
  {
    if n > 0 {
      RefusedSaysLittle(s, states, events, n - 1);
      assert Moves(states[n - 1], events[n - 1], states[n]);
    }
  }

  /** Some continuation sends a message more. */
  ghost predicate MaySayMore(s: State) {
    exists states: seq<State>, events, n: nat :: Follows(s, states, events) && n < |states| && |states[n].log| > |s.log|
  }

  /**
   * Exactly when a partial can follow "too long": when one of the utterance in
   * progress is being decoded as the message arrives that is one too many.
   */
  lemma PartialFollowsTooLongIff(s: State, pcm: seq<Sample>, detected: bool, queued: nat, due: bool)
    requires Kept(s) && s.place.Waiting? && s.received + |pcm| > MAX_SAMPLES
    ensures MaySayMore(Apply(s, Audio(pcm, detected, queued, due))) <==> Decoding(s)
  {
    var t := Apply(s, Audio(pcm, detected, queued, due));
    if Decoding(s) {
      var e := PartialDecoded(true);
      var states, events := [t, Apply(t, e)], [e];
      assert Follows(t, states, events) && |states[1].log| > |t.log|;
    }
    if MaySayMore(t) {
      var states: seq<State>, events, n: nat :| Follows(t, states, events) && n < |states| && |states[n].log| > |t.log|;
      RefusedSaysLittle(t, states, events, n);
    }
  }

  /** Nothing but silence was heard so far. */
  predicate Silent(s: State, received: nat) {
    && s.place.Waiting? && s.received == received && s.log == [] && s.tasks == [] && s.utterance == 0
    && !s.speaking && s.segments == 0 && s.offset <= |s.buf| < s.offset + WINDOW
  }

  function Zeros(n: nat): seq<Sample> {
    seq(n, i => 0.0)
  }

  lemma MoreSilence(s: State, n: nat)
    requires Silent(s, s.received) && s.received + n <= MAX_SAMPLES
    ensures Silent(OnAudio(s, Zeros(n), false, 0, false), s.received + n)
  {
    OnAudioFits(s, Zeros(n), false, 0, false);
  }

  /** Speech is noticed, and with the next message a partial decode begins. */
  lemma SpeechBegins(s: State)
    requires Silent(s, s.received) && s.received + 2 * WINDOW <= MAX_SAMPLES
    ensures var t := OnAudio(s, Zeros(WINDOW), true, 0, false);
      && t.place.Waiting? && t.offset <= |t.buf| && t.tasks == []
      && var u := OnAudio(t, Zeros(WINDOW), true, 0, true);
        && u.place.Waiting? && u.offset <= |u.buf| && u.received == s.received + 2 * WINDOW
        && u.log == [] && u.utterance == 0 && u.tasks == [Task(0, true)]
  {
    OnAudioFits(s, Zeros(WINDOW), true, 0, false);
    var t := OnAudio(s, Zeros(WINDOW), true, 0, false);
    OnAudioFits(t, Zeros(WINDOW), true, 0, true);
  }

  /** Ten minutes but a moment of silence, in four messages. */
  const SILENCE := MAX_SAMPLES / 4 - WINDOW

  predicate Short(events: seq<Event>) {
    forall i :: 0 <= i < |events| && events[i].Audio? ==> |events[i].pcm| <= MAX_SAMPLES / 4
  }

  lemma OneMoreStep(s: State, states: seq<State>, events: seq<Event>, e: Event, t: State)
    requires Follows(s, states, events) && Moves(states[|states| - 1], e, t)
    ensures Follows(s, states + [t], events + [e])
  {
    var more, all := states + [t], events + [e];
    forall i, j | 0 <= i < j < |more| && j == i + 1 ensures Moves(more[i], all[i], more[j]) {
      if j < |states| { assert Moves(states[i], events[i], states[j]); }
    }
  }

  lemma {:induction false} SilentRun(k: nat) returns (states: seq<State>, events: seq<Event>)
    requires k <= 4
    ensures IsRun(states, events) && Short(events) && Silent(states[|states| - 1], k * SILENCE)
  {
    if k == 0 {
      states, events := [START], [];
    } else {
      states, events := SilentRun(k - 1);
      var s := states[|states| - 1];
      MoreSilence(s, SILENCE);
      var e := Audio(Zeros(SILENCE), false, 0, false);
      OneMoreStep(START, states, events, e, Apply(s, e));
      states, events := states + [Apply(s, e)], events + [e];
    }
  }

  lemma SpokenRun() returns (states: seq<State>, events: seq<Event>)
    ensures IsRun(states, events) && Short(events)
    ensures var s := states[|states| - 1];
      && s.place.Waiting? && s.offset <= |s.buf| && s.received == MAX_SAMPLES - 2 * WINDOW
      && s.log == [] && s.utterance == 0 && s.tasks == [Task(0, true)]
  {
    states, events := SilentRun(4);
    var s := states[|states| - 1];
    SpeechBegins(s);
    var first, second := Audio(Zeros(WINDOW), true, 0, false), Audio(Zeros(WINDOW), true, 0, true);
    var t := Apply(s, first);
    var u := Apply(t, second);
    OneMoreStep(START, states, events, first, t);
    OneMoreStep(START, states + [t], events + [first], second, u);
    states, events := states + [t] + [u], events + [first] + [second];
  }

  /** It does happen: silence, then speech, and the session gets too long while it is decoded. */
  lemma PartialMayFollowTooLong() returns (states: seq<State>, events: seq<Event>)
    ensures IsRun(states, events) && Short(events)
    ensures states[|states| - 1].log == [TooLong(0), Partial(0)]
  {
    states, events := SpokenRun();
    var s := states[|states| - 1];
    var last, decoded := Audio(Zeros(3 * WINDOW), true, 0, false), PartialDecoded(true);
    var t := Apply(s, last);
    var u := Apply(t, decoded);
    assert u.log == [TooLong(0)] + [Partial(0)];
    OneMoreStep(START, states, events, last, t);
    OneMoreStep(START, states + [t], events + [last], decoded, u);
    states, events := states + [t] + [u], events + [last] + [decoded];
  }
}
