/** docreader/splitter/splitter.py: the whole pipeline, split_text and restore_text. */
module TextSplitting {
  import opened HeaderTracking
  import opened Merging
  import opened Options
  import opened Pieces
  import opened ProtectedSpans
  import opened SeparatorSplitting
  import opened Text

  datatype Result<+T> = Ok(value: T) | ValueError(message: string)

  // ----- what the tracker reports piece by piece -----

  /** The test made before headers are prepended. */
  predicate Apt(headers: string, piece: string) {
    !Contains(piece, headers) && !HeaderColumnMismatch(headers, piece)
  }

  function ReportOf(st: HeaderTracking.State, piece: string): Report {
    var headers := Headers(st.active);
    Report(st.endedNow, headers, Apt(headers, piece))
  }

  function Reports(hooks: seq<Hook>, st: HeaderTracking.State, ps: seq<string>): (rs: seq<Report>)
    ensures |rs| == |ps|
  {
    if ps == [] then []
    else
      var n := |ps| - 1;
      Reports(hooks, st, ps[..n]) + [ReportOf(Run(hooks, st, ps), ps[n])]
  }

  lemma {:induction false} ReportAt(hooks: seq<Hook>, st: HeaderTracking.State, ps: seq<string>, k: nat)
    requires k < |ps|
    ensures Reports(hooks, st, ps)[k] == ReportOf(Run(hooks, st, ps[..k + 1]), ps[k])
  {
    if k == |ps| - 1 {
      assert ps[..k + 1] == ps;
    } else {
      ReportAt(hooks, st, ps[..|ps| - 1], k);
      assert ps[..|ps| - 1][..k + 1] == ps[..k + 1];
    }
  }

  lemma {:induction false} RunKeepsInvariant(hooks: seq<Hook>, st: HeaderTracking.State, ps: seq<string>)
    requires Invariant(hooks, st)
    ensures Invariant(hooks, Run(hooks, st, ps))
  {
    if ps != [] {
      RunKeepsInvariant(hooks, st, ps[..|ps| - 1]);
      StepKeeps(hooks, Run(hooks, st, ps[..|ps| - 1]), ps[|ps| - 1]);
    }
  }

  /** On an empty piece the tracker reports no header and no end. */
  lemma EmptyPieceReport(hooks: seq<Hook>, st: HeaderTracking.State, ps: seq<string>, k: nat)
    requires Invariant(hooks, st) && EndsOnEmpty(hooks) && k < |ps| && ps[k] == ""
    ensures !Reports(hooks, st, ps)[k].ended && Reports(hooks, st, ps)[k].headers == ""
  {
    ReportAt(hooks, st, ps, k);
    var before := ps[..k + 1][..k];
    RunKeepsInvariant(hooks, st, before);
    EmptyUnitIsQuiet(hooks, Run(hooks, st, before));
  }

  // ----- the pipeline on values -----

  datatype Settings = Settings(limits: Limits, separators: seq<string>, hooks: seq<Hook>)

  ghost predicate Valid(cfg: Settings) {
    cfg.limits.size >= 1 && Usable(cfg.separators)
  }

  /** No protected match is empty. */
  predicate NoneEmpty(matches: seq<Match>) {
    forall i :: 0 <= i < |matches| ==> matches[i].start < matches[i].end
  }

  /** No header can come with an empty piece: the tracker is silent on one, or there is none. */
  ghost predicate Quiet(cfg: Settings, st: HeaderTracking.State, matches: seq<Match>) {
    (EndsOnEmpty(cfg.hooks) && Invariant(cfg.hooks, st)) || NoneEmpty(matches)
  }

  /** Stages one to three: the pieces that go into the merge. */
  function PiecesOf(cfg: Settings, text: string, matches: seq<Match>): seq<string>
    requires Valid(cfg) && Within(Ordered(matches), text)
  {
    Isolate(text, Split(text, cfg.limits.size, cfg.separators), 0, Protect(text, matches, cfg.limits.size), 0, [])
  }

  /** split_text for a tracker in state `st` and arbitrary protected matches. */
  function Chunks(cfg: Settings, st: HeaderTracking.State, text: string, matches: seq<Match>): seq<Chunk>
    requires Valid(cfg) && Within(Ordered(matches), text)
  {
    if text == "" then []
    else
      var ps := PiecesOf(cfg, text, matches);
      Merged(ps, Reports(cfg.hooks, st, ps), cfg.limits)
  }

  lemma WithinOrdered(matches: seq<Match>, text: string)
    requires Within(matches, text)
    ensures Within(Ordered(matches), text)
  {
    OrderedKeeps(matches);
    var ms := Ordered(matches);
    forall i | 0 <= i < |ms| ensures ms[i].start <= ms[i].end <= |text| {
      assert ms[i] in matches;
    }
  }

  lemma StagesFit(cfg: Settings, text: string, matches: seq<Match>)
    requires Valid(cfg) && Within(Ordered(matches), text) && text != ""
    ensures Laid(text, Split(text, cfg.limits.size, cfg.separators), 0,
                 Protect(text, matches, cfg.limits.size), 0, cfg.limits.size)
    ensures GoodPieces(Split(text, cfg.limits.size, cfg.separators), cfg.limits.size, true)
  {
    SplitFits(text, cfg.limits.size, cfg.separators);
    var gs := Protect(text, matches, cfg.limits.size);
    KeptAreDisjoint(text, Ordered(matches), -1, cfg.limits.size);
    if gs != [] {
      GuardsFromEarlier(gs, text, -1, 0, cfg.limits.size);
    }
    assert text[0..] == text;
  }

  /**
   * The assertion inside split_text: the pieces concatenate to the text. And no
   * piece is longer than a chunk.
   */
  lemma PiecesFit(cfg: Settings, text: string, matches: seq<Match>)
    requires Valid(cfg) && Within(Ordered(matches), text) && text != ""
    ensures var ps := PiecesOf(cfg, text, matches);
      && Concat(ps) == text && ps != []
      && forall k :: 0 <= k < |ps| ==> |ps[k]| <= cfg.limits.size
  {
    var size := cfg.limits.size;
    var splits := Split(text, size, cfg.separators);
    var gs := Protect(text, matches, size);
    StagesFit(cfg, text, matches);
    assert text[..0] == "";
    IsolateKeepsText(text, splits, 0, gs, 0, [], size);
    IsolatedFit(text, splits, 0, gs, 0, [], size, false);
  }

  lemma GuardHasText(text: string, matches: seq<Match>, size: int, g: Guard)
    requires Within(Ordered(matches), text) && NoneEmpty(matches) && g in Protect(text, matches, size)
    ensures g.content != ""
  {
    var ms := Ordered(matches);
    OrderedKeeps(matches);
    KeptExactly(text, ms, -1, size, g);
    var j :| 0 <= j < |ms| && g == Guard(ms[j].start, text[ms[j].start..ms[j].end]);
    assert ms[j] in matches;
  }

  /** Without an empty match every piece has text. */
  lemma NoEmptyPiece(cfg: Settings, text: string, matches: seq<Match>)
    requires Valid(cfg) && Within(Ordered(matches), text) && text != "" && NoneEmpty(matches)
    ensures Whole(PiecesOf(cfg, text, matches))
  {
    StagesFit(cfg, text, matches);
    var size := cfg.limits.size;
    var gs := Protect(text, matches, size);
    forall i | 0 <= i < |gs| ensures gs[i].content != "" {
      GuardHasText(text, matches, size, gs[i]);
    }
    IsolatedFit(text, Split(text, size, cfg.separators), 0, gs, 0, [], size, true);
  }

  lemma PiecesMerge(cfg: Settings, st: HeaderTracking.State, text: string, matches: seq<Match>)
    requires Valid(cfg) && Within(Ordered(matches), text) && text != "" && Quiet(cfg, st, matches)
    ensures var ps := PiecesOf(cfg, text, matches);
      Mergeable(ps, Reports(cfg.hooks, st, ps), cfg.limits)
  {
    PiecesFit(cfg, text, matches);
    var ps := PiecesOf(cfg, text, matches);
    if NoneEmpty(matches) {
      NoEmptyPiece(cfg, text, matches);
    } else {
      forall k | 0 <= k < |ps| && ps[k] == ""
        ensures !Reports(cfg.hooks, st, ps)[k].ended && Reports(cfg.hooks, st, ps)[k].headers == ""
      {
        EmptyPieceReport(cfg.hooks, st, ps, k);
      }
    }
  }

  // ----- the theorems -----

  /**
   * Round trip: for every text, separators, protected matches and tracker, restore_text
   * undoes split_text, unless a header is reported with an empty piece.
   */
  lemma RoundTrip(cfg: Settings, st: HeaderTracking.State, text: string, matches: seq<Match>)
    requires Valid(cfg) && Within(Ordered(matches), text) && Quiet(cfg, st, matches)
    ensures Restored(Chunks(cfg, st, text, matches)) == text
  {
    if text != "" {
      PiecesFit(cfg, text, matches);
      PiecesMerge(cfg, st, text, matches);
      var ps := PiecesOf(cfg, text, matches);
      MergedRestores(ps, Reports(cfg.hooks, st, ps), cfg.limits);
    }
  }

  /** The header is the one in force when piece j had been read, and piece j begins at `at`. */
  ghost predicate InForceWith(cfg: Settings, st: HeaderTracking.State, ps: seq<string>, j: nat, at: nat,
                              header: string)
  {
    && j < |ps| && Pos(ps, j) == at
    && header == Headers(Run(cfg.hooks, st, ps[..j + 1]).active) && Apt(header, ps[j])
  }

  /** The header in force at the piece that begins where the chunk before ends. */
  ghost predicate InForceAt(cfg: Settings, st: HeaderTracking.State, ps: seq<string>, at: nat, header: string) {
    exists j: nat :: InForceWith(cfg, st, ps, j, at, header)
  }

  /** Chunk shape and size bound, for chunk k and the one before it. */
  lemma ChunkShape(cfg: Settings, st: HeaderTracking.State, text: string, matches: seq<Match>, k: nat)
    requires Valid(cfg) && Within(Ordered(matches), text) && Quiet(cfg, st, matches) && text != ""
    requires k < |Chunks(cfg, st, text, matches)|
    ensures var cs := Chunks(cfg, st, text, matches);
      var c := cs[k];
      var header := |c.text| - (c.end - c.start);
      && c.start <= c.end <= |text| && header >= 0
      && |c.text| <= cfg.limits.size
      && c.text[header..] == text[c.start..c.end]
      && (header > 0 ==>
            k > 0 && InForceAt(cfg, st, PiecesOf(cfg, text, matches), cs[k - 1].end, c.text[..header]))
      && (if k == 0 then c.start == 0
          else cs[k - 1].start <= c.start <= cs[k - 1].end < c.end
               && cs[k - 1].end - c.start <= Max0(cfg.limits.overlap)
               && (Whole(PiecesOf(cfg, text, matches)) ==> cs[k - 1].start < c.start))
      && (k == |cs| - 1 ==> c.end == |text|)
  {
    PiecesFit(cfg, text, matches);
    PiecesMerge(cfg, st, text, matches);
    var ps := PiecesOf(cfg, text, matches);
    var rs := Reports(cfg.hooks, st, ps);
    var cs := Chunks(cfg, st, text, matches);
    MergedShape(ps, rs, cfg.limits);
    ChunkedAt(cs, text, rs, cfg.limits, Whole(ps), k);
    ChunkHeader(cfg, st, ps, k);
  }

  lemma ChunkHeader(cfg: Settings, st: HeaderTracking.State, ps: seq<string>, k: nat)
    requires k < |Merged(ps, Reports(cfg.hooks, st, ps), cfg.limits)|
    ensures var cs := Merged(ps, Reports(cfg.hooks, st, ps), cfg.limits);
      HeaderOf(cs[k]) == "" || (k > 0 && InForceAt(cfg, st, ps, cs[k - 1].end, HeaderOf(cs[k])))
  {
    var rs := Reports(cfg.hooks, st, ps);
    var cs := Merged(ps, rs, cfg.limits);
    HeadersOpenChunks(ps, rs, cfg.limits);
    HeaderOpensAt(cs, ps, rs, cfg.limits, k);
    if HeaderOf(cs[k]) != "" {
      var at, h := cs[k - 1].end, HeaderOf(cs[k]);
      var j: nat :| OpensAt(ps, rs, cfg.limits, j, at, h);
      ReportAt(cfg.hooks, st, ps, j);
      assert InForceWith(cfg, st, ps, j, at, h);
    }
  }

  /** A protected span that is kept lies whole inside at least one chunk. */
  lemma ProtectedSurvives(cfg: Settings, st: HeaderTracking.State, text: string, matches: seq<Match>, i: nat)
    requires Valid(cfg) && Within(Ordered(matches), text) && text != ""
    requires i < |Protect(text, matches, cfg.limits.size)|
    requires Protect(text, matches, cfg.limits.size)[i].content != ""
    ensures var g := Protect(text, matches, cfg.limits.size)[i];
      && g.End() <= |text| && g.content == text[g.start..g.End()]
      && InSome(Chunks(cfg, st, text, matches), g.start, g.End())
  {
    var size := cfg.limits.size;
    var gs := Protect(text, matches, size);
    StagesFit(cfg, text, matches);
    GuardsAreDisjoint(gs, text, 0, size);
    assert text[..0] == "";
    GuardsArePieces(text, Split(text, size, cfg.separators), 0, gs, 0, [], size, i);
    var ps := PiecesOf(cfg, text, matches);
    var k :| 0 <= k < |ps| && ps[k] == gs[i].content && Pos(ps, k) == gs[i].start;
    PiecesAreCovered(ps, Reports(cfg.hooks, st, ps), cfg.limits, k);
  }

  // ----- the splitter object -----

  /**
   * The end pattern of the default table hook: a unit that is blank or whose
   * first visible character is no pipe.
   */
  predicate DefaultEnds(split: string) {
    var s := StripLeft(split, IsSpace);
    s == "" || s[0] != '|'
  }

  /** DEFAULT_CONFIGS: one hook, for Markdown tables. */
  function DefaultHooks(starts: string -> Option<string>): (hooks: seq<Hook>)
    requires starts("").None?
    ensures EndsOnEmpty(hooks)
  {
    [Hook(TABLE, starts, DefaultEnds)]
  }

  /**
   * The trackers a splitter is built with restore every text: whatever was split before, for any
   * separators and any matches, empty ones among them.
   */
  lemma InstalledRoundTrip(limits: Limits, separators: seq<string>, starts: string -> Option<string>,
                           before: seq<string>, text: string, matches: seq<Match>)
    requires starts("").None? && limits.size >= 1 && Usable(separators) && Within(Ordered(matches), text)
    ensures var cfg := Settings(limits, separators, DefaultHooks(starts));
      Restored(Chunks(cfg, Run(cfg.hooks, FRESH, before), text, matches)) == text
  {
    var cfg := Settings(limits, separators, DefaultHooks(starts));
    RunKeeps(cfg.hooks, before);
    RoundTrip(cfg, Run(cfg.hooks, FRESH, before), text, matches);
  }

  class TextSplitter {
    const limits: Limits
    const separators: seq<string>
    const tracker: HeaderTracker

    constructor (limits: Limits, separators: seq<string>, tracker: HeaderTracker)
      ensures this.limits == limits && this.separators == separators && this.tracker == tracker
    {
      this.limits, this.separators, this.tracker := limits, separators, tracker;
    }

    /** `TextSplitter.__init__`, which rejects an overlap above the chunk size and nothing else. */
    static method Create(size: int, overlap: int, separators: seq<string>, starts: string -> Option<string>)
      returns (r: Result<TextSplitter>)
      requires starts("").None?
      ensures r.Ok? <==> overlap <= size
      ensures r.Ok? ==> fresh(r.value) && r.value.limits == Limits(size, overlap) && r.value.separators == separators
      ensures r.Ok? && size >= 1 && Usable(separators) ==> r.value.Good()
    {
      if overlap > size {
        return ValueError("larger chunk overlap than chunk size");
      }
      var tracker := new HeaderTracker(DefaultHooks(starts));
      var s := new TextSplitter(Limits(size, overlap), separators, tracker);
      return Ok(s);
    }

    ghost function Config(): Settings {
      Settings(limits, separators, tracker.hooks)
    }

    ghost predicate Good()
      reads tracker
    {
      Valid(Config()) && EndsOnEmpty(tracker.hooks) && Invariant(tracker.hooks, tracker.Now())
    }

    /** _merge: the loop over the pieces, tracking headers along the way. */
    method Merge(splits: seq<string>) returns (chunks: seq<Chunk>)
      requires splits != []
      modifies tracker
      ensures chunks == Merged(splits, Reports(tracker.hooks, old(tracker.Now()), splits), limits)
      ensures tracker.Now() == Run(tracker.hooks, old(tracker.Now()), splits)
    {
      chunks := [];
      var curChunk: seq<Chunk> := [];
      var curLen := 0;
      var curStart: nat := 0;
      ghost var reports := Reports(tracker.hooks, old(tracker.Now()), splits);
      ghost var st := EMPTY;
      assert splits[..0] == [];
      for i := 0 to |splits|
        invariant tracker.Now() == Run(tracker.hooks, old(tracker.Now()), splits[..i])
        invariant st == After(splits, reports, limits, i)
        invariant Represents(splits, i, st, chunks, curChunk, curLen, curStart)
      {
        var report := Track(splits, i, old(tracker.Now()), reports);
        chunks, curChunk, curLen, st := TakePiece(splits, reports, i, st, chunks, curChunk, curLen, curStart,
                                                  splits[i], report);
        curStart := curStart + |splits[i]|;
      }
      assert splits[..|splits|] == splits;
      var last := Finish(curChunk, splits, st.lo, |splits|, st.hd);
      chunks := chunks + [last];
    }

    /** The tracker sees piece i and reports. */
    method Track(splits: seq<string>, i: nat, ghost was: HeaderTracking.State, ghost reports: seq<Report>)
      returns (report: Report)
      requires i < |splits| && reports == Reports(tracker.hooks, was, splits)
      requires tracker.Now() == Run(tracker.hooks, was, splits[..i])
      modifies tracker
      ensures tracker.Now() == Run(tracker.hooks, was, splits[..i + 1]) && report == reports[i]
    {
      assert splits[..i + 1][..i] == splits[..i];
      var begun := tracker.Update(splits[i]);
      var headers := Headers(tracker.active);
      ReportAt(tracker.hooks, was, splits, i);
      report := Report(tracker.endedNow, headers, Apt(headers, splits[i]));
    }

    method TakePiece(ghost ps: seq<string>, ghost reports: seq<Report>, ghost i: nat, ghost st: Merging.State,
                     chunks0: seq<Chunk>, curChunk0: seq<Chunk>, curLen0: int, curStart: nat,
                     split: string, report: Report)
      returns (chunks: seq<Chunk>, curChunk: seq<Chunk>, curLen: int, ghost now: Merging.State)
      requires i < |ps| == |reports| && reports[i] == report && ps[i] == split
      requires Represents(ps, i, st, chunks0, curChunk0, curLen0, curStart)
      ensures Represents(ps, i + 1, now, chunks, curChunk, curLen, curStart + |split|)
      ensures now == Place(ps, reports, limits, i, CloseTable(ps, reports, i, st))
    {
      chunks, curChunk, curLen := EndTable(ps, reports, i, st, chunks0, curChunk0, curLen0, curStart, report.ended);
      ghost var closed := CloseTable(ps, reports, i, st);
      chunks, curChunk, curLen := AddPiece(ps, reports, i, closed, chunks, curChunk, curLen, curStart, split, report);
      now := Place(ps, reports, limits, i, closed);
    }

    /** How the loop variables stand for the state of the specification. */
    ghost predicate Represents(ps: seq<string>, i: nat, st: Merging.State, chunks: seq<Chunk>,
                               curChunk: seq<Chunk>, curLen: int, curStart: nat)
    {
      && i <= |ps| && st.lo <= i && (st.hd != "" ==> st.lo < i)
      && chunks == st.chunks && curChunk == Elements(ps, st.lo, i, st.hd)
      && curLen == |st.hd| + Length(ps, st.lo, i) && curStart == Pos(ps, i)
    }

    method EndTable(ghost ps: seq<string>, ghost reports: seq<Report>, ghost i: nat, ghost st: Merging.State,
                    chunks0: seq<Chunk>, curChunk0: seq<Chunk>, curLen0: int, ghost curStart: nat, ended: bool)
      returns (chunks: seq<Chunk>, curChunk: seq<Chunk>, curLen: int)
      requires i < |ps| == |reports| && reports[i].ended == ended
      requires Represents(ps, i, st, chunks0, curChunk0, curLen0, curStart)
      ensures Represents(ps, i, CloseTable(ps, reports, i, st), chunks, curChunk, curLen, curStart)
    {
      chunks, curChunk, curLen := chunks0, curChunk0, curLen0;
      EmptyDeque(ps, st.lo, i, st.hd);
      if ended && |curChunk| > 0 {
        var c := Finish(curChunk, ps, st.lo, i, st.hd);
        chunks := chunks + [c];
        curChunk := [];
        curLen := 0;
        EmptyDeque(ps, i, i, "");
      }
    }

    lemma EmptyDeque(ps: seq<string>, lo: nat, i: nat, hd: string)
      requires lo <= i <= |ps| && (hd != "" ==> lo < i)
      ensures Elements(ps, lo, i, hd) == [] <==> lo == i
    {
      assert |Body(ps, lo, i)| == i - lo;
    }

    method AddPiece(ghost ps: seq<string>, ghost reports: seq<Report>, ghost i: nat, ghost st: Merging.State,
                    chunks0: seq<Chunk>, curChunk0: seq<Chunk>, curLen0: int, curStart: nat,
                    split: string, report: Report)
      returns (chunks: seq<Chunk>, curChunk: seq<Chunk>, curLen: int)
      requires i < |ps| == |reports| && reports[i] == report && ps[i] == split
      requires Represents(ps, i, st, chunks0, curChunk0, curLen0, curStart)
      ensures Represents(ps, i + 1, Place(ps, reports, limits, i, st), chunks, curChunk, curLen, curStart + |split|)
    {
      chunks, curChunk, curLen := chunks0, curChunk0, curLen0;
      var headers := if |report.headers| > limits.size then "" else report.headers;
      EmptyDeque(ps, st.lo, i, st.hd);
      ghost var lo, hd := st.lo, st.hd;
      if curLen + |split| + |headers| > limits.size {
        if |curChunk| > 0 {
          var c := Finish(curChunk, ps, st.lo, i, st.hd);
          chunks := chunks + [c];
        }
        curChunk, curLen := PopFront(curChunk, curLen, |split| + |headers|, limits, ps, st.lo, i, st.hd);
        lo, hd := Retain(ps, FirstLeft(st.lo, st.hd), i, |split| + |headers|, limits), "";
        if headers != "" && |split| + |headers| < limits.size && report.apt {
          EmptyDeque(ps, lo, i, "");
          FirstElement(ps, lo, i);
          var nextStart := if curChunk != [] then curChunk[0].start else curStart;
          curChunk := [Chunk(nextStart, nextStart, headers)] + curChunk;
          curLen := curLen + |headers|;
          hd := headers;
          WithHeader(ps, lo, i, headers);
        }
      }
      AppendPiece(ps, lo, i, hd);
      curChunk := curChunk + [Chunk(curStart, curStart + |split|, split)];
      curLen := curLen + |split|;
    }

    lemma FirstElement(ps: seq<string>, lo: nat, i: nat)
      requires lo <= i <= |ps|
      ensures lo < i ==> Elements(ps, lo, i, "") != [] && Elements(ps, lo, i, "")[0].start == Pos(ps, lo)
    {
      if lo < i {
        ElementAt(ps, lo, i, "", lo);
      }
    }

    lemma WithHeader(ps: seq<string>, lo: nat, i: nat, hd: string)
      requires lo <= i <= |ps| && hd != ""
      ensures Elements(ps, lo, i, hd) == [Chunk(Pos(ps, lo), Pos(ps, lo), hd)] + Elements(ps, lo, i, "")
    {
      assert Elements(ps, lo, i, "") == Body(ps, lo, i);
    }

    lemma AppendPiece(ps: seq<string>, lo: nat, i: nat, hd: string)
      requires lo <= i < |ps|
      ensures Elements(ps, lo, i + 1, hd) == Elements(ps, lo, i, hd) + [Chunk(Pos(ps, i), Pos(ps, i + 1), ps[i])]
    {
      assert Body(ps, lo, i + 1) == Body(ps, lo, i) + [Chunk(Pos(ps, i), Pos(ps, i + 1), ps[i])];
    }

    method SplitText(text: string, matches: seq<Match>) returns (chunks: seq<Chunk>)
      requires Good() && Within(matches, text)
      modifies tracker
      ensures Good() && Within(Ordered(matches), text)
      ensures chunks == Chunks(Config(), old(tracker.Now()), text, matches)
      ensures Restored(chunks) == text
    {
      WithinOrdered(matches, text);
      RoundTrip(Config(), tracker.Now(), text, matches);
      if text == "" {
        return [];
      }
      StagesFit(Config(), text, matches);
      PiecesFit(Config(), text, matches);
      var splits := SplitRecursively(text, limits.size, separators);
      var protect := SplitProtected(text, matches, limits.size);
      splits := JoinPieces(text, splits, protect, limits.size);
      assert Concat(splits) == text;
      RunKeepsInvariant(tracker.hooks, tracker.Now(), splits);
      chunks := Merge(splits);
    }
  }
}
