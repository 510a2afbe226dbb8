/**
 * docreader/splitter/splitter.py, last stage: merging pieces into chunks with
 * overlap and a prepended header, and restoring the text from them.
 */
module Merging {
  import opened Text
  import opened Pieces
  import Sorting

  /** A (start, end, text) tuple: a final chunk, or an element of the chunk being built. */
  datatype Chunk = Chunk(start: nat, end: nat, text: string)

  datatype Limits = Limits(size: int, overlap: int)

  /**
   * What the header tracker reports once it has seen a piece; `apt` when the
   * headers are not in the piece already and their columns match its rows.
   */
  datatype Report = Report(ended: bool, headers: string, apt: bool)

  // ----- the merge loop on positions -----

  function Length(ps: seq<string>, lo: nat, i: nat): int
    requires lo <= i <= |ps|
  {
    Pos(ps, i) - Pos(ps, lo)
  }

  function Slice(text: string, a: nat, b: nat): string {
    if a <= b <= |text| then text[a..b] else ""
  }

  /** The finished chunk of header `hd` and pieces lo..i. */
  function Chop(ps: seq<string>, lo: nat, i: nat, hd: string): Chunk
    requires lo <= i <= |ps|
  {
    Chunk(Pos(ps, lo), Pos(ps, i), hd + Slice(Concat(ps), Pos(ps, lo), Pos(ps, i)))
  }

  /** Headers longer than a chunk are not used. */
  function Admitted(headers: string, size: int): string {
    if |headers| > size then "" else headers
  }

  predicate Roomy(ps: seq<string>, lo: nat, i: nat, need: nat, lim: Limits)
    requires lo <= i <= |ps|
  {
    Length(ps, lo, i) <= lim.overlap && Length(ps, lo, i) + need <= lim.size
  }

  /**
   * The first piece kept as overlap: pieces go from the front until the rest is
   * short enough; the piece behind an empty one goes with it.
   */
  function Retain(ps: seq<string>, lo: nat, i: nat, need: nat, lim: Limits): (r: nat)
    requires lo <= i <= |ps|
    ensures lo <= r <= i
    decreases i - lo
  {
    if lo == i || Roomy(ps, lo, i, need, lim) then lo
    else if ps[lo] == "" && lo + 1 < i then Retain(ps, lo + 2, i, need, lim)
    else Retain(ps, lo + 1, i, need, lim)
  }

  /** Where popping starts: a header takes the piece behind it along. */
  function FirstLeft(lo: nat, hd: string): nat {
    if hd != "" then lo + 1 else lo
  }

  /** The chunk being built holds header `hd` and the pieces from `lo` on. */
  datatype State = State(lo: nat, hd: string, chunks: seq<Chunk>)

  const EMPTY := State(0, "", [])

  ghost predicate Ready(ps: seq<string>, reports: seq<Report>, i: nat, st: State) {
    i <= |ps| == |reports| && st.lo <= i && (st.hd != "" ==> st.lo < i)
  }

  /** A table that ended with this piece closes the chunk before it. */
  function CloseTable(ps: seq<string>, reports: seq<Report>, i: nat, st: State): (s: State)
    requires Ready(ps, reports, i, st) && i < |ps|
    ensures Ready(ps, reports, i, s)
  {
    if reports[i].ended && st.lo < i
    then State(i, "", st.chunks + [Chop(ps, st.lo, i, st.hd)]) else st
  }

  /**
   * Adds piece i: when it does not fit, the chunk is finished and the next one
   * starts with the retained overlap and the current header.
   */
  function Place(ps: seq<string>, reports: seq<Report>, lim: Limits, i: nat, st: State): (s: State)
    requires Ready(ps, reports, i, st) && i < |ps|
    ensures Ready(ps, reports, i + 1, s)
  {
    var headers := Admitted(reports[i].headers, lim.size);
    var need := |ps[i]| + |headers|;
    if |st.hd| + Length(ps, st.lo, i) + need <= lim.size then st
    else
      State(Retain(ps, FirstLeft(st.lo, st.hd), i, need, lim),
            if headers != "" && need < lim.size && reports[i].apt then headers else "",
            if st.lo < i then st.chunks + [Chop(ps, st.lo, i, st.hd)] else st.chunks)
  }

  function After(ps: seq<string>, reports: seq<Report>, lim: Limits, i: nat): (s: State)
    requires i <= |ps| == |reports|
    ensures Ready(ps, reports, i, s)
  {
    if i == 0 then EMPTY
    else Place(ps, reports, lim, i - 1, CloseTable(ps, reports, i - 1, After(ps, reports, lim, i - 1)))
  }

  function Merged(ps: seq<string>, reports: seq<Report>, lim: Limits): seq<Chunk>
    requires |ps| == |reports|
  {
    var s := After(ps, reports, lim, |ps|);
    s.chunks + [Chop(ps, s.lo, |ps|, s.hd)]
  }

  // ----- the shape of the chunks -----

  function Max0(n: int): int { if n >= 0 then n else 0 }

  /** A header the tracker reported, or none. */
  ghost predicate IsHeader(h: string, reports: seq<Report>) {
    h == "" || exists j :: 0 <= j < |reports| && reports[j].headers == h
  }

  /** At most one header followed by exactly the chunk's slice of the text. */
  ghost predicate GoodChunk(c: Chunk, text: string, reports: seq<Report>, size: int) {
    && c.start <= c.end <= |text|
    && c.end - c.start <= |c.text| <= size
    && c.text[|c.text| - (c.end - c.start)..] == text[c.start..c.end]
    && IsHeader(c.text[..|c.text| - (c.end - c.start)], reports)
    && (c.start == c.end ==> c.text == "")
  }

  /** No gap, an overlap within bounds, both ends moving on. */
  ghost predicate Linked(c: Chunk, d: Chunk, lim: Limits, whole: bool) {
    && c.end < d.end
    && c.start <= d.start <= c.end && (whole ==> c.start < d.start)
    && c.end - d.start <= Max0(lim.overlap)
  }

  /** Every chunk is good, each follows the one before it, and the first starts at 0. */
  ghost predicate Chunked(cs: seq<Chunk>, text: string, reports: seq<Report>, lim: Limits, whole: bool) {
    cs == [] ||
    var n := |cs| - 1;
    && GoodChunk(cs[n], text, reports, lim.size)
    && (if n == 0 then cs[n].start == 0 else Linked(cs[n - 1], cs[n], lim, whole))
    && Chunked(cs[..n], text, reports, lim, whole)
  }

  lemma {:induction false} ChunkedAt(cs: seq<Chunk>, text: string, reports: seq<Report>, lim: Limits, whole: bool,
                                     k: nat)
    requires Chunked(cs, text, reports, lim, whole) && k < |cs|
    ensures GoodChunk(cs[k], text, reports, lim.size)
    ensures if k == 0 then cs[k].start == 0 else Linked(cs[k - 1], cs[k], lim, whole)
  {
    if k < |cs| - 1 {
      ChunkedAt(cs[..|cs| - 1], text, reports, lim, whole, k);
    }
  }

  ghost predicate Whole(ps: seq<string>) {
    forall k :: 0 <= k < |ps| ==> ps[k] != ""
  }

  /**
   * What the merge needs: pieces that fit, and a tracker that reports neither a
   * header nor an end on an empty piece.
   */
  ghost predicate Mergeable(ps: seq<string>, reports: seq<Report>, lim: Limits) {
    && |ps| == |reports| && lim.size >= 1
    && (forall k :: 0 <= k < |ps| ==> |ps[k]| <= lim.size)
    && (forall k :: 0 <= k < |ps| && ps[k] == "" ==> !reports[k].ended && reports[k].headers == "")
  }

  /** The chunk being built fits and continues the finished ones. */
  ghost predicate Building(ps: seq<string>, lim: Limits, i: nat, st: State) {
    && st.lo <= i <= |ps|
    && |st.hd| + Length(ps, st.lo, i) <= lim.size
    && (st.hd != "" ==> Pos(ps, st.lo) < Pos(ps, i))
    && Continues(ps, lim, i, st)
  }

  ghost predicate Continues(ps: seq<string>, lim: Limits, i: nat, st: State)
    requires st.lo <= i <= |ps|
  {
    if st.chunks == [] then st.lo == 0
    else
      var last := st.chunks[|st.chunks| - 1];
      && last.end < Pos(ps, i)
      && last.start <= Pos(ps, st.lo) <= last.end && (Whole(ps) ==> last.start < Pos(ps, st.lo))
      && last.end - Pos(ps, st.lo) <= Max0(lim.overlap)
  }

  lemma {:induction false} RetainedFits(ps: seq<string>, lo: nat, i: nat, need: nat, lim: Limits)
    requires lo <= i <= |ps|
    ensures var r := Retain(ps, lo, i, need, lim);
      && 0 <= Length(ps, r, i) <= Max0(lim.overlap)
      && (r == i || Length(ps, r, i) + need <= lim.size)
      && Pos(ps, lo) <= Pos(ps, r)
    decreases i - lo
  {
    PosMonotone(ps, lo, i);
    if lo < i && !Roomy(ps, lo, i, need, lim) {
      if ps[lo] == "" && lo + 1 < i {
        RetainedFits(ps, lo + 2, i, need, lim);
        PosMonotone(ps, lo, lo + 2);
      } else {
        RetainedFits(ps, lo + 1, i, need, lim);
      }
    }
  }

  /**
   * The overlap is the longest one that fits: it starts at the least index from
   * which the limits hold.
   */
  lemma {:induction false} RetainIsLongest(ps: seq<string>, lo: nat, i: nat, need: nat, lim: Limits, k: nat)
    requires lo <= i <= |ps| && lo <= k < Retain(ps, lo, i, need, lim)
    ensures !Roomy(ps, k, i, need, lim)
    decreases i - lo
  {
    if ps[lo] == "" && lo + 1 < i {
      if k == lo + 1 {
        assert Length(ps, lo + 1, i) == Length(ps, lo, i);
      } else if k > lo + 1 {
        RetainIsLongest(ps, lo + 2, i, need, lim, k);
      }
    } else if k > lo {
      RetainIsLongest(ps, lo + 1, i, need, lim, k);
    }
  }

  lemma {:induction false} RetainedIsRoomy(ps: seq<string>, lo: nat, i: nat, need: nat, lim: Limits)
    requires lo <= i <= |ps|
    ensures var r := Retain(ps, lo, i, need, lim); r == i || Roomy(ps, r, i, need, lim)
    decreases i - lo
  {
    if lo < i && !Roomy(ps, lo, i, need, lim) {
      RetainedIsRoomy(ps, if ps[lo] == "" && lo + 1 < i then lo + 2 else lo + 1, i, need, lim);
    }
  }

  lemma PlaceKeeps(ps: seq<string>, reports: seq<Report>, lim: Limits, i: nat, st: State)
    requires Mergeable(ps, reports, lim) && i < |ps|
    requires Ready(ps, reports, i, st) && Building(ps, lim, i, st)
    ensures Building(ps, lim, i + 1, Place(ps, reports, lim, i, st))
  {
    var need := |ps[i]| + |Admitted(reports[i].headers, lim.size)|;
    PosMonotone(ps, st.lo, i);
    if |st.hd| + Length(ps, st.lo, i) + need > lim.size {
      assert ps[i] != "";
      if st.lo < i {
        RetainMoves(ps, lim, i, st, need);
      } else {
        assert st.chunks == [];
      }
    }
  }

  lemma RetainMoves(ps: seq<string>, lim: Limits, i: nat, st: State, need: nat)
    requires st.lo < i <= |ps| && |st.hd| + Length(ps, st.lo, i) + need > lim.size
    ensures var lo := Retain(ps, FirstLeft(st.lo, st.hd), i, need, lim);
      && st.lo <= lo <= i && Pos(ps, st.lo) <= Pos(ps, lo) <= Pos(ps, i)
      && (Whole(ps) ==> Pos(ps, st.lo) < Pos(ps, lo))
      && Pos(ps, i) - Pos(ps, lo) <= Max0(lim.overlap)
      && (lo == i || Pos(ps, i) - Pos(ps, lo) + need <= lim.size)
  {
    var lo := Retain(ps, FirstLeft(st.lo, st.hd), i, need, lim);
    RetainedFits(ps, FirstLeft(st.lo, st.hd), i, need, lim);
    PosMonotone(ps, st.lo, lo);
    PosMonotone(ps, lo, i);
    if Whole(ps) {
      MovesOn(ps, st, i, need, lim);
    }
  }

  /** Finishing a chunk drops at least its first piece. */
  lemma MovesOn(ps: seq<string>, st: State, i: nat, need: nat, lim: Limits)
    requires Whole(ps) && st.lo < i <= |ps|
    requires |st.hd| + Length(ps, st.lo, i) + need > lim.size
    ensures var from := FirstLeft(st.lo, st.hd);
      Pos(ps, st.lo) < Pos(ps, Retain(ps, from, i, need, lim))
  {
    var from := FirstLeft(st.lo, st.hd);
    var r := Retain(ps, from, i, need, lim);
    assert r > st.lo;
    PosMonotone(ps, st.lo, r);
  }

  /** A chunk has just been finished at piece i and the next one is still empty. */
  ghost predicate ClosedAt(ps: seq<string>, i: nat, s: State) {
    && i < |ps| && s.lo == i && s.hd == "" && s.chunks != []
    && var last := s.chunks[|s.chunks| - 1];
      last.end == Pos(ps, i) && last.start <= last.end && (Whole(ps) ==> last.start < last.end)
  }

  lemma CloseTableKeeps(ps: seq<string>, reports: seq<Report>, lim: Limits, i: nat, st: State)
    requires Mergeable(ps, reports, lim) && i < |ps|
    requires Ready(ps, reports, i, st) && Building(ps, lim, i, st)
    ensures var s := CloseTable(ps, reports, i, st);
      s == st || (ps[i] != "" && ClosedAt(ps, i, s))
  {
    PosMonotone(ps, st.lo, i);
  }

  lemma PlaceAfterClose(ps: seq<string>, reports: seq<Report>, lim: Limits, i: nat, st: State)
    requires Mergeable(ps, reports, lim) && ClosedAt(ps, i, st) && ps[i] != ""
    ensures Building(ps, lim, i + 1, Place(ps, reports, lim, i, st))
  {
  }

  lemma {:induction false} AfterBuilds(ps: seq<string>, reports: seq<Report>, lim: Limits, i: nat)
    requires Mergeable(ps, reports, lim) && i <= |ps|
    ensures Building(ps, lim, i, After(ps, reports, lim, i))
  {
    if i > 0 {
      var st := After(ps, reports, lim, i - 1);
      var s := CloseTable(ps, reports, i - 1, st);
      AfterBuilds(ps, reports, lim, i - 1);
      CloseTableKeeps(ps, reports, lim, i - 1, st);
      if s == st {
        PlaceKeeps(ps, reports, lim, i - 1, st);
      } else {
        PlaceAfterClose(ps, reports, lim, i - 1, s);
      }
    }
  }

  lemma {:induction false} HeadersAreReported(ps: seq<string>, reports: seq<Report>, lim: Limits, i: nat)
    requires i <= |ps| == |reports|
    ensures IsHeader(After(ps, reports, lim, i).hd, reports)
  {
    if i > 0 {
      HeadersAreReported(ps, reports, lim, i - 1);
    }
  }

  /** The header is the one reported with the piece at `at`, and apt for that piece. */
  ghost predicate OpenedBy(ps: seq<string>, reports: seq<Report>, lim: Limits, at: nat, h: string) {
    exists j: nat :: OpensAt(ps, reports, lim, j, at, h)
  }

  ghost predicate OpensAt(ps: seq<string>, reports: seq<Report>, lim: Limits, j: nat, at: nat, h: string) {
    && j < |ps| && j < |reports| && Pos(ps, j) == at
    && reports[j].headers == h && reports[j].apt && |ps[j]| + |h| < lim.size
  }

  function HeaderOf(c: Chunk): string {
    if c.start <= c.end && c.end - c.start <= |c.text| then c.text[..|c.text| - (c.end - c.start)] else c.text
  }

  /** Every header is that of the piece which opened the chunk, where the one before it ends. */
  ghost predicate HeadersOpen(cs: seq<Chunk>, ps: seq<string>, reports: seq<Report>, lim: Limits) {
    cs == [] ||
    var n := |cs| - 1;
    && (HeaderOf(cs[n]) == "" || (n > 0 && OpenedBy(ps, reports, lim, cs[n - 1].end, HeaderOf(cs[n]))))
    && HeadersOpen(cs[..n], ps, reports, lim)
  }

  lemma {:induction false} HeaderOpensAt(cs: seq<Chunk>, ps: seq<string>, reports: seq<Report>, lim: Limits, k: nat)
    requires HeadersOpen(cs, ps, reports, lim) && k < |cs|
    ensures HeaderOf(cs[k]) == "" || (k > 0 && OpenedBy(ps, reports, lim, cs[k - 1].end, HeaderOf(cs[k])))
  {
    if k < |cs| - 1 {
      HeaderOpensAt(cs[..|cs| - 1], ps, reports, lim, k);
    }
  }

  lemma HeaderOfChop(ps: seq<string>, lo: nat, i: nat, hd: string)
    requires lo <= i <= |ps|
    ensures HeaderOf(Chop(ps, lo, i, hd)) == hd
  {
    SliceOfPieces(ps, lo, i);
    var c := Chop(ps, lo, i, hd);
    assert c.text[..|hd|] == hd;
  }

  /** The header of the chunk being built belongs to the piece that opened it. */
  ghost predicate HeaderInPlace(ps: seq<string>, reports: seq<Report>, lim: Limits, st: State) {
    st.hd == "" || (st.chunks != [] && OpenedBy(ps, reports, lim, st.chunks[|st.chunks| - 1].end, st.hd))
  }

  lemma ChopOpens(ps: seq<string>, reports: seq<Report>, lim: Limits, i: nat, st: State)
    requires st.lo <= i <= |ps| && HeaderInPlace(ps, reports, lim, st)
    requires HeadersOpen(st.chunks, ps, reports, lim)
    ensures HeadersOpen(st.chunks + [Chop(ps, st.lo, i, st.hd)], ps, reports, lim)
  {
    HeaderOfChop(ps, st.lo, i, st.hd);
    var cs := st.chunks + [Chop(ps, st.lo, i, st.hd)];
    assert cs[..|st.chunks|] == st.chunks;
  }

  lemma PlaceOpens(ps: seq<string>, reports: seq<Report>, lim: Limits, i: nat, st: State)
    requires Ready(ps, reports, i, st) && i < |ps|
    requires HeaderInPlace(ps, reports, lim, st) && HeadersOpen(st.chunks, ps, reports, lim)
    ensures var s := Place(ps, reports, lim, i, st);
      HeaderInPlace(ps, reports, lim, s) && HeadersOpen(s.chunks, ps, reports, lim)
  {
    ChopOpens(ps, reports, lim, i, st);
    var s := Place(ps, reports, lim, i, st);
    if s != st && s.hd != "" {
      assert st.lo < i;
      assert OpensAt(ps, reports, lim, i, Pos(ps, i), s.hd);
    }
  }

  lemma CloseTableOpens(ps: seq<string>, reports: seq<Report>, lim: Limits, i: nat, st: State)
    requires Ready(ps, reports, i, st) && i < |ps|
    requires HeaderInPlace(ps, reports, lim, st) && HeadersOpen(st.chunks, ps, reports, lim)
    ensures var s := CloseTable(ps, reports, i, st);
      HeaderInPlace(ps, reports, lim, s) && HeadersOpen(s.chunks, ps, reports, lim)
  {
    ChopOpens(ps, reports, lim, i, st);
  }

  lemma {:induction false} AfterOpens(ps: seq<string>, reports: seq<Report>, lim: Limits, i: nat)
    requires i <= |ps| == |reports|
    ensures var s := After(ps, reports, lim, i);
      HeaderInPlace(ps, reports, lim, s) && HeadersOpen(s.chunks, ps, reports, lim)
  {
    if i > 0 {
      var st := After(ps, reports, lim, i - 1);
      AfterOpens(ps, reports, lim, i - 1);
      CloseTableOpens(ps, reports, lim, i - 1, st);
      PlaceOpens(ps, reports, lim, i - 1, CloseTable(ps, reports, i - 1, st));
    }
  }

  /** The headers of the finished chunks, for any pieces and any reports. */
  lemma HeadersOpenChunks(ps: seq<string>, reports: seq<Report>, lim: Limits)
    requires |ps| == |reports|
    ensures HeadersOpen(Merged(ps, reports, lim), ps, reports, lim)
  {
    AfterOpens(ps, reports, lim, |ps|);
    ChopOpens(ps, reports, lim, |ps|, After(ps, reports, lim, |ps|));
  }

  lemma ChopIsGood(ps: seq<string>, reports: seq<Report>, lim: Limits, i: nat, st: State)
    requires |ps| == |reports| && Building(ps, lim, i, st) && IsHeader(st.hd, reports)
    ensures GoodChunk(Chop(ps, st.lo, i, st.hd), Concat(ps), reports, lim.size)
  {
    SliceOfPieces(ps, st.lo, i);
    SliceOfPieces(ps, i, |ps|);
    var c := Chop(ps, st.lo, i, st.hd);
    assert c.text[..|st.hd|] == st.hd;
  }

  /** Finishing the chunk being built keeps the chunks in shape. */
  lemma ChopLinks(ps: seq<string>, reports: seq<Report>, lim: Limits, i: nat, st: State)
    requires |ps| == |reports| && Building(ps, lim, i, st) && IsHeader(st.hd, reports)
    requires Chunked(st.chunks, Concat(ps), reports, lim, Whole(ps))
    ensures Chunked(st.chunks + [Chop(ps, st.lo, i, st.hd)], Concat(ps), reports, lim, Whole(ps))
  {
    ChopIsGood(ps, reports, lim, i, st);
    var cs := st.chunks + [Chop(ps, st.lo, i, st.hd)];
    assert cs[..|st.chunks|] == st.chunks;
  }

  /** The chunks finished so far are in shape after every piece. */
  lemma {:induction false} AfterIsChunked(ps: seq<string>, reports: seq<Report>, lim: Limits, i: nat)
    requires Mergeable(ps, reports, lim) && i <= |ps|
    ensures Chunked(After(ps, reports, lim, i).chunks, Concat(ps), reports, lim, Whole(ps))
  {
    if i > 0 {
      var st := After(ps, reports, lim, i - 1);
      AfterIsChunked(ps, reports, lim, i - 1);
      AfterBuilds(ps, reports, lim, i - 1);
      HeadersAreReported(ps, reports, lim, i - 1);
      ChopLinks(ps, reports, lim, i - 1, st);
      OneChunkAtMost(ps, reports, lim, i - 1, st);
    }
  }

  lemma OneChunkAtMost(ps: seq<string>, reports: seq<Report>, lim: Limits, i: nat, st: State)
    requires Ready(ps, reports, i, st) && i < |ps|
    ensures var cs := Place(ps, reports, lim, i, CloseTable(ps, reports, i, st)).chunks;
      cs == st.chunks || cs == st.chunks + [Chop(ps, st.lo, i, st.hd)]
  {
  }

  /**
   * Chunk shape: a header at most and then the slice; no chunk longer than the
   * limit; starts and ends moving on without a gap and with bounded overlap;
   * the first chunk starts at 0 and the last ends with the text.
   */
  lemma MergedShape(ps: seq<string>, reports: seq<Report>, lim: Limits)
    requires Mergeable(ps, reports, lim) && ps != []
    ensures var cs := Merged(ps, reports, lim);
      && cs != [] && Chunked(cs, Concat(ps), reports, lim, Whole(ps))
      && cs[|cs| - 1].end == |Concat(ps)|
  {
    AfterBuilds(ps, reports, lim, |ps|);
    AfterIsChunked(ps, reports, lim, |ps|);
    HeadersAreReported(ps, reports, lim, |ps|);
    SliceOfPieces(ps, 0, |ps|);
    var s := After(ps, reports, lim, |ps|);
    ChopLinks(ps, reports, lim, |ps|, s);
  }

  // ----- every piece lies whole in some chunk -----

  ghost predicate InSome(cs: seq<Chunk>, from: nat, to: nat) {
    exists k :: 0 <= k < |cs| && cs[k].start <= from && to <= cs[k].end
  }

  lemma InMore(cs: seq<Chunk>, c: Chunk, from: nat, to: nat)
    requires InSome(cs, from, to) || (c.start <= from && to <= c.end)
    ensures InSome(cs + [c], from, to)
  {
    if InSome(cs, from, to) {
      var k :| 0 <= k < |cs| && cs[k].start <= from && to <= cs[k].end;
      assert (cs + [c])[k] == cs[k];
    } else {
      assert (cs + [c])[|cs|] == c;
    }
  }

  lemma {:induction false} LeftBehindIsCovered(ps: seq<string>, reports: seq<Report>, lim: Limits, i: nat, k: nat)
    requires i <= |ps| == |reports| && k < After(ps, reports, lim, i).lo
    ensures InSome(After(ps, reports, lim, i).chunks, Pos(ps, k), Pos(ps, k + 1))
  {
    if i > 0 {
      var st := After(ps, reports, lim, i - 1);
      if k < st.lo {
        LeftBehindIsCovered(ps, reports, lim, i - 1, k);
      }
      if k < i - 1 {
        PosMonotone(ps, k + 1, i - 1);
      }
      if st.lo <= k {
        PosMonotone(ps, st.lo, k);
      }
      var c := Chop(ps, st.lo, i - 1, st.hd);
      if k < i - 1 {
        InMore(st.chunks, c, Pos(ps, k), Pos(ps, k + 1));
      }
    }
  }

  lemma PiecesAreCovered(ps: seq<string>, reports: seq<Report>, lim: Limits, k: nat)
    requires k < |ps| == |reports|
    ensures InSome(Merged(ps, reports, lim), Pos(ps, k), Pos(ps, k + 1))
  {
    var s := After(ps, reports, lim, |ps|);
    if k < s.lo {
      LeftBehindIsCovered(ps, reports, lim, |ps|, k);
    } else {
      PosMonotone(ps, s.lo, k);
    }
    PosMonotone(ps, k + 1, |ps|);
    InMore(s.chunks, Chop(ps, s.lo, |ps|, s.hd), Pos(ps, k), Pos(ps, k + 1));
  }

  // ----- TextSplitter.restore_text -----

  /** `s[k:]`, a negative index counting from the end. */
  function SliceFrom(s: string, k: int): string {
    if k >= 0 then From(s, k) else if -k >= |s| then s else s[|s| + k..]
  }

  /** Sort key (end, start). */
  predicate EndsBefore(a: Chunk, b: Chunk) {
    a.end < b.end || (a.end == b.end && a.start <= b.start)
  }

  function PrevEnd(cs: seq<Chunk>, k: nat): nat
    requires k <= |cs|
  {
    if k == 0 then 0 else cs[k - 1].end
  }

  /** What the loop has put together after k chunks. */
  function RestoreUpto(cs: seq<Chunk>, k: nat): string
    requires k <= |cs|
  {
    if k == 0 then ""
    else RestoreUpto(cs, k - 1) + SliceFrom(cs[k - 1].text, PrevEnd(cs, k - 1) - cs[k - 1].end)
  }

  function Restored(cs: seq<Chunk>): string {
    var sorted := Sorting.Sort(EndsBefore, cs);
    RestoreUpto(sorted, |sorted|)
  }

  method RestoreText(chunks: seq<Chunk>) returns (text: string)
    ensures text == Restored(chunks)
  {
    text := "";
    if chunks == [] {
      return;
    }
    var sorted := Sorting.Sort(EndsBefore, chunks);
    var lastEnd: nat := 0;
    for i := 0 to |sorted|
      invariant lastEnd == PrevEnd(sorted, i)
      invariant text == RestoreUpto(sorted, i)
    {
      text := text + SliceFrom(sorted[i].text, lastEnd - sorted[i].end);
      lastEnd := sorted[i].end;
    }
  }

  /** A slice cuts off the header and the overlap, never more and never less. */
  lemma SliceIsNew(c: Chunk, text: string, reports: seq<Report>, size: int, lastEnd: nat)
    requires GoodChunk(c, text, reports, size)
    requires c.start <= lastEnd < c.end || lastEnd == c.start == c.end
    ensures SliceFrom(c.text, lastEnd - c.end) == text[lastEnd..c.end]
  {
    if lastEnd < c.end {
      var cut := c.text[|c.text| - (c.end - c.start)..];
      assert cut[lastEnd - c.start..] == c.text[|c.text| - (c.end - lastEnd)..];
      assert text[c.start..c.end][lastEnd - c.start..] == text[lastEnd..c.end];
    }
  }

  ghost predicate TilesAt(cs: seq<Chunk>, k: nat, text: string)
    requires k < |cs|
  {
    && PrevEnd(cs, k) <= cs[k].end <= |text|
    && SliceFrom(cs[k].text, PrevEnd(cs, k) - cs[k].end) == text[PrevEnd(cs, k)..cs[k].end]
  }

  lemma ShapeTiles(cs: seq<Chunk>, text: string, reports: seq<Report>, lim: Limits, whole: bool)
    requires Chunked(cs, text, reports, lim, whole)
    ensures forall k :: 0 <= k < |cs| ==> TilesAt(cs, k, text)
  {
    forall k | 0 <= k < |cs| ensures TilesAt(cs, k, text) {
      ChunkedAt(cs, text, reports, lim, whole, k);
      SliceIsNew(cs[k], text, reports, lim.size, PrevEnd(cs, k));
    }
  }

  /** The slices taken tile the text. */
  lemma {:induction false} RestoresPrefix(cs: seq<Chunk>, text: string, k: nat)
    requires k <= |cs| && forall j :: 0 <= j < |cs| ==> TilesAt(cs, j, text)
    ensures PrevEnd(cs, k) <= |text| && RestoreUpto(cs, k) == text[..PrevEnd(cs, k)]
  {
    if k > 0 {
      RestoresPrefix(cs, text, k - 1);
      assert TilesAt(cs, k - 1, text);
      TwoSlices(text, PrevEnd(cs, k - 1), cs[k - 1].end);
    }
  }

  lemma TwoSlices(text: string, a: nat, b: nat)
    requires a <= b <= |text|
    ensures text[..b] == text[..a] + text[a..b]
  {
  }

  lemma {:induction false} EndsAscend(cs: seq<Chunk>, text: string, reports: seq<Report>, lim: Limits, whole: bool,
                                      i: nat, j: nat)
    requires Chunked(cs, text, reports, lim, whole) && i < j < |cs|
    ensures cs[i].end < cs[j].end
  {
    ChunkedAt(cs, text, reports, lim, whole, j);
    if i < j - 1 {
      EndsAscend(cs, text, reports, lim, whole, i, j - 1);
    }
  }

  /**
   * Chunks in shape restore the text they cover: their ends ascend, so the
   * sort changes nothing, and no slice index is 0 by accident.
   */
  lemma ShapeRestores(cs: seq<Chunk>, text: string, reports: seq<Report>, lim: Limits, whole: bool)
    requires Chunked(cs, text, reports, lim, whole)
    requires cs != [] && cs[|cs| - 1].end == |text|
    ensures Restored(cs) == text
  {
    forall i, j | 0 <= i < j < |cs| ensures EndsBefore(cs[i], cs[j]) {
      EndsAscend(cs, text, reports, lim, whole, i, j);
    }
    Sorting.SortIsIdentity(EndsBefore, cs);
    ShapeTiles(cs, text, reports, lim, whole);
    RestoresPrefix(cs, text, |cs|);
    assert text[..|text|] == text;
  }

  lemma MergedRestores(ps: seq<string>, reports: seq<Report>, lim: Limits)
    requires Mergeable(ps, reports, lim) && ps != []
    ensures Restored(Merged(ps, reports, lim)) == Concat(ps)
  {
    MergedShape(ps, reports, lim);
    ShapeRestores(Merged(ps, reports, lim), Concat(ps), reports, lim, Whole(ps));
  }

  // ----- when two chunks start at one place -----

  function Need(ps: seq<string>, reports: seq<Report>, lim: Limits, i: nat): nat
    requires i < |ps| == |reports|
  {
    |ps[i]| + |Admitted(reports[i].headers, lim.size)|
  }

  /** Piece i finishes the chunk being built: its table ended, or there is no room. */
  ghost predicate Finishes(ps: seq<string>, reports: seq<Report>, lim: Limits, i: nat, st: State) {
    && i < |ps| && Ready(ps, reports, i, st) && st.lo < i
    && (reports[i].ended || |st.hd| + Length(ps, st.lo, i) + Need(ps, reports, lim, i) > lim.size)
  }

  /**
   * The chunk being built has no text but its header; or it makes room, no table
   * having ended, by giving up a header in front of an empty piece.
   */
  ghost predicate Restarts(ps: seq<string>, reports: seq<Report>, lim: Limits, i: nat, st: State)
    requires i < |ps| && Ready(ps, reports, i, st) && st.lo < i
  {
    || Length(ps, st.lo, i) == 0
    || (!reports[i].ended && st.hd != "" && ps[st.lo] == "" && Roomy(ps, st.lo, i, Need(ps, reports, lim, i), lim))
  }

  function Next(ps: seq<string>, reports: seq<Report>, lim: Limits, i: nat, st: State): State
    requires i < |ps| && Ready(ps, reports, i, st)
  {
    Place(ps, reports, lim, i, CloseTable(ps, reports, i, st))
  }

  /** Without a table's end, the chunk after a full one starts where that did in just these cases. */
  lemma RetainStays(ps: seq<string>, lo: nat, hd: string, i: nat, need: nat, lim: Limits)
    requires lo < i <= |ps| && |hd| + Length(ps, lo, i) + need > lim.size
    ensures Pos(ps, Retain(ps, FirstLeft(lo, hd), i, need, lim)) == Pos(ps, lo)
       <==> Length(ps, lo, i) == 0 || (hd != "" && ps[lo] == "" && Roomy(ps, lo, i, need, lim))
  {
    var from := FirstLeft(lo, hd);
    var r := Retain(ps, from, i, need, lim);
    PosMonotone(ps, lo, lo + 1);
    PosMonotone(ps, lo + 1, i);
    PosMonotone(ps, lo, r);
    PosMonotone(ps, r, i);
    RetainedIsRoomy(ps, from, i, need, lim);
    if r > lo { PosMonotone(ps, lo + 1, r); }
  }

  /** What one piece does to the start of the chunk being built, and to the finished ones. */
  lemma NextStart(ps: seq<string>, reports: seq<Report>, lim: Limits, i: nat, st: State)
    requires i < |ps| && Ready(ps, reports, i, st)
    ensures var s := Next(ps, reports, lim, i, st);
      if Finishes(ps, reports, lim, i, st) then
        && s.chunks == st.chunks + [Chop(ps, st.lo, i, st.hd)]
        && (Pos(ps, s.lo) == Pos(ps, st.lo) <==> Restarts(ps, reports, lim, i, st))
      else s.chunks == st.chunks && s.lo == st.lo
  {
    if Finishes(ps, reports, lim, i, st) && !reports[i].ended {
      RetainStays(ps, st.lo, st.hd, i, Need(ps, reports, lim, i), lim);
    }
  }

  /** The chunk being built after j pieces is one of the result, and starts where it says. */
  lemma {:induction false} ChunkStart(ps: seq<string>, reports: seq<Report>, lim: Limits, j: nat)
    requires j <= |ps| == |reports|
    ensures var st, cs := After(ps, reports, lim, j), Merged(ps, reports, lim);
      st.chunks < cs && cs[|st.chunks|].start == Pos(ps, st.lo)
    decreases |ps| - j
  {
    if j < |ps| {
      var st, cs := After(ps, reports, lim, j), Merged(ps, reports, lim);
      NextStart(ps, reports, lim, j, st);
      ChunkStart(ps, reports, lim, j + 1);
      if Finishes(ps, reports, lim, j, st) {
        StillIn(cs, st.chunks, Chop(ps, st.lo, j, st.hd), After(ps, reports, lim, j + 1).chunks);
      }
    }
  }

  lemma StillIn(cs: seq<Chunk>, before: seq<Chunk>, c: Chunk, after: seq<Chunk>)
    requires after < cs && after == before + [c]
    ensures before < cs && cs[|before|] == c
  {
  }

  /** Chunk k is finished by piece i. */
  ghost predicate FinishedBy(ps: seq<string>, reports: seq<Report>, lim: Limits, k: nat, i: nat)
    requires |ps| == |reports|
  {
    && i < |ps| && |After(ps, reports, lim, i).chunks| == k
    && Finishes(ps, reports, lim, i, After(ps, reports, lim, i))
  }

  lemma {:induction false} SomePieceFinishes(ps: seq<string>, reports: seq<Report>, lim: Limits, k: nat, j: nat)
    returns (i: nat)
    requires j <= |ps| == |reports| && k < |After(ps, reports, lim, j).chunks|
    ensures FinishedBy(ps, reports, lim, k, i)
  {
    NextStart(ps, reports, lim, j - 1, After(ps, reports, lim, j - 1));
    if k < |After(ps, reports, lim, j - 1).chunks| {
      i := SomePieceFinishes(ps, reports, lim, k, j - 1);
    } else {
      i := j - 1;
    }
  }

  lemma StartsAfter(ps: seq<string>, reports: seq<Report>, lim: Limits, k: nat, i: nat)
    requires |ps| == |reports| && FinishedBy(ps, reports, lim, k, i)
    ensures var cs := Merged(ps, reports, lim);
      && k + 1 < |cs|
      && (cs[k + 1].start == cs[k].start <==> Restarts(ps, reports, lim, i, After(ps, reports, lim, i)))
  {
    NextStart(ps, reports, lim, i, After(ps, reports, lim, i));
    ChunkStart(ps, reports, lim, i);
    ChunkStart(ps, reports, lim, i + 1);
  }

  /**
   * When a chunk starts where the one before it did: that one is finished by some
   * piece, and then had no text but its header, or was full, its table not having
   * ended, and makes room by giving up a header in front of an empty piece.
   */
  lemma StartStaysIff(ps: seq<string>, reports: seq<Report>, lim: Limits, k: nat)
    requires |ps| == |reports| && k + 1 < |Merged(ps, reports, lim)|
    ensures exists i :: FinishedBy(ps, reports, lim, k, i)
    ensures var cs := Merged(ps, reports, lim);
      forall i :: FinishedBy(ps, reports, lim, k, i) ==>
        (cs[k + 1].start == cs[k].start <==> Restarts(ps, reports, lim, i, After(ps, reports, lim, i)))
  {
    var i := SomePieceFinishes(ps, reports, lim, k, |ps|);
    forall i | FinishedBy(ps, reports, lim, k, i)
      ensures var cs := Merged(ps, reports, lim);
        cs[k + 1].start == cs[k].start <==> Restarts(ps, reports, lim, i, After(ps, reports, lim, i))
    {
      StartsAfter(ps, reports, lim, k, i);
    }
  }

  // ----- the deque of the merge loop -----

  /** The (start, end, text) elements of pieces lo..i. */
  function Body(ps: seq<string>, lo: nat, i: nat): seq<Chunk>
    requires lo <= i <= |ps|
  {
    seq(i - lo, j requires 0 <= j < i - lo => Chunk(Pos(ps, lo + j), Pos(ps, lo + j + 1), ps[lo + j]))
  }

  /** The elements of the chunk being built: its header first. */
  function Elements(ps: seq<string>, lo: nat, i: nat, hd: string): seq<Chunk>
    requires lo <= i <= |ps|
  {
    (if hd == "" then [] else [Chunk(Pos(ps, lo), Pos(ps, lo), hd)]) + Body(ps, lo, i)
  }

  function Texts(cs: seq<Chunk>): seq<string> {
    seq(|cs|, k requires 0 <= k < |cs| => cs[k].text)
  }

  lemma ElementAt(ps: seq<string>, lo: nat, i: nat, hd: string, k: nat)
    requires lo <= k < i <= |ps|
    ensures var h := if hd == "" then 0 else 1;
      var d := k - lo + h;
      && d < |Elements(ps, lo, i, hd)| == i - lo + h
      && Elements(ps, lo, i, hd)[d] == Chunk(Pos(ps, k), Pos(ps, k + 1), ps[k])
  {
    assert Body(ps, lo, i)[k - lo] == Chunk(Pos(ps, lo + (k - lo)), Pos(ps, lo + (k - lo) + 1), ps[lo + (k - lo)]);
  }

  lemma DropBody(ps: seq<string>, lo: nat, i: nat, d: nat)
    requires lo <= i <= |ps| && d <= i - lo
    ensures Body(ps, lo, i)[d..] == Body(ps, lo + d, i)
  {
    var rest, body := Body(ps, lo, i)[d..], Body(ps, lo + d, i);
    forall j | 0 <= j < |rest| ensures rest[j] == body[j] {
      assert lo + (d + j) == (lo + d) + j;
    }
  }

  /** Dropping d elements from the front, a header among them. */
  lemma DropElements(ps: seq<string>, lo: nat, i: nat, hd: string, d: nat)
    requires lo <= i <= |ps| && (if hd == "" then 0 else 1) <= d <= |Elements(ps, lo, i, hd)|
    ensures Elements(ps, lo, i, hd)[d..] == Elements(ps, lo + d - (if hd == "" then 0 else 1), i, "")
  {
    var h := if hd == "" then 0 else 1;
    DropBody(ps, lo, i, d - h);
    assert Elements(ps, lo, i, hd)[d..] == Body(ps, lo, i)[d - h..];
  }

  /** Joining the elements gives the text of the finished chunk. */
  lemma ElementsJoin(ps: seq<string>, lo: nat, i: nat, hd: string)
    requires lo < i <= |ps|
    ensures var es := Elements(ps, lo, i, hd);
      && es != [] && es[0].start == Pos(ps, lo) && es[|es| - 1].end == Pos(ps, i)
      && Concat(Texts(es)) == hd + Concat(ps[lo..i])
  {
    var es := Elements(ps, lo, i, hd);
    assert Texts(Body(ps, lo, i)) == ps[lo..i];
    if hd == "" {
      assert es == Body(ps, lo, i);
    } else {
      assert Texts(es) == [hd] + ps[lo..i];
      assert Texts(es)[1..] == ps[lo..i];
    }
  }

  /** A chunk from the elements: first start, last end, joined texts. */
  method Finish(curChunk: seq<Chunk>, ghost ps: seq<string>, ghost lo: nat, ghost i: nat, ghost hd: string)
    returns (c: Chunk)
    requires lo < i <= |ps| && curChunk == Elements(ps, lo, i, hd)
    ensures c == Chop(ps, lo, i, hd)
  {
    ElementsJoin(ps, lo, i, hd);
    SliceOfPieces(ps, lo, i);
    c := Chunk(curChunk[0].start, curChunk[|curChunk| - 1].end, Concat(Texts(curChunk)));
  }

  /** Once d elements are gone: the first piece left, and the length left. */
  ghost function LeftAt(lo: nat, hd: string, d: nat): nat {
    if hd == "" then lo + d else if d == 0 then lo else lo + d - 1
  }

  ghost function LengthAt(ps: seq<string>, lo: nat, i: nat, hd: string, d: nat): int
    requires LeftAt(lo, hd, d) <= i <= |ps|
  {
    Length(ps, LeftAt(lo, hd, d), i) + if d == 0 then |hd| else 0
  }

  lemma PopOne(ps: seq<string>, lo: nat, i: nat, hd: string, d: nat)
    requires lo <= i <= |ps| && d < |Elements(ps, lo, i, hd)|
    ensures LeftAt(lo, hd, d + 1) <= i
    ensures var e := Elements(ps, lo, i, hd)[d];
      && LengthAt(ps, lo, i, hd, d + 1) == LengthAt(ps, lo, i, hd, d) - |e.text|
      && (e.start == e.end <==> (hd != "" && d == 0) || ps[LeftAt(lo, hd, d)] == "")
  {
    if hd == "" || d > 0 {
      ElementAt(ps, lo, i, hd, LeftAt(lo, hd, d));
    }
  }

  lemma RetainNext(ps: seq<string>, lo: nat, i: nat, need: nat, lim: Limits)
    requires lo < i <= |ps| && !Roomy(ps, lo, i, need, lim)
    ensures Retain(ps, lo, i, need, lim)
         == Retain(ps, if ps[lo] == "" && lo + 1 < i then lo + 2 else lo + 1, i, need, lim)
  {
  }

  /**
   * How many elements a round of the pop loop takes: a header or an empty
   * piece goes together with the next one.
   */
  function Taken(curChunk: seq<Chunk>): (n: nat)
    ensures curChunk != [] ==> 0 < n <= |curChunk|
  {
    if |curChunk| > 1 && curChunk[0].start == curChunk[0].end then 2 else if curChunk == [] then 0 else 1
  }

  method PopRound(curChunk0: seq<Chunk>, curLen0: int) returns (curChunk: seq<Chunk>, curLen: int)
    requires curChunk0 != []
    ensures curChunk == curChunk0[Taken(curChunk0)..]
    ensures curLen == curLen0 - |curChunk0[0].text| - if Taken(curChunk0) == 2 then |curChunk0[1].text| else 0
  {
    var first := curChunk0[0];
    curChunk := curChunk0[1..];
    curLen := curLen0 - |first.text|;
    if curChunk != [] && first.start == first.end {
      curLen := curLen - |curChunk[0].text|;
      curChunk := curChunk[1..];
    }
  }

  /** What a round does to the positions: it ends without a header, nearer the goal. */
  lemma RoundIs(ps: seq<string>, lo: nat, i: nat, hd: string, d: nat, need: nat, lim: Limits)
    requires lo <= i <= |ps| && d < |Elements(ps, lo, i, hd)| && (hd != "" ==> lo < i)
    requires (hd != "" && d == 0) || !Roomy(ps, LeftAt(lo, hd, d), i, need, lim)
    ensures var es := Elements(ps, lo, i, hd);
      var two := d + 1 < |es| && es[d].start == es[d].end;
      var next := if two then d + 2 else d + 1;
      && LeftAt(lo, hd, next) <= i
      && LengthAt(ps, lo, i, hd, next)
         == LengthAt(ps, lo, i, hd, d) - |es[d].text| - (if two then |es[d + 1].text| else 0)
      && Retain(ps, LeftAt(lo, hd, next), i, need, lim)
         == Retain(ps, if hd != "" && d == 0 then lo + 1 else LeftAt(lo, hd, d), i, need, lim)
  {
    var es := Elements(ps, lo, i, hd);
    assert |es| == i - lo + if hd == "" then 0 else 1;
    PopOne(ps, lo, i, hd, d);
    if d + 1 < |es| && es[d].start == es[d].end {
      PopOne(ps, lo, i, hd, d + 1);
    }
    if hd == "" || d > 0 {
      RetainNext(ps, LeftAt(lo, hd, d), i, need, lim);
    }
  }

  /** The loop's state once d elements are gone. */
  ghost predicate Popped(ps: seq<string>, lo: nat, i: nat, hd: string, need: nat, lim: Limits,
                         d: nat, curChunk: seq<Chunk>, curLen: int)
  {
    && lo <= i <= |ps| && (hd != "" ==> lo < i)
    && d <= |Elements(ps, lo, i, hd)| && curChunk == Elements(ps, lo, i, hd)[d..]
    && LeftAt(lo, hd, d) <= i && curLen == LengthAt(ps, lo, i, hd, d)
    && Retain(ps, if hd != "" && d == 0 then lo + 1 else LeftAt(lo, hd, d), i, need, lim)
       == Retain(ps, FirstLeft(lo, hd), i, need, lim)
  }

  lemma PoppedNext(ps: seq<string>, lo: nat, i: nat, hd: string, need: nat, lim: Limits,
                   d: nat, curChunk: seq<Chunk>, curLen: int, rest: seq<Chunk>, restLen: int)
    requires Popped(ps, lo, i, hd, need, lim, d, curChunk, curLen) && curChunk != []
    requires curLen > lim.overlap || curLen + need > lim.size
    requires rest == curChunk[Taken(curChunk)..]
    requires restLen == curLen - |curChunk[0].text| - if Taken(curChunk) == 2 then |curChunk[1].text| else 0
    ensures Popped(ps, lo, i, hd, need, lim, d + Taken(curChunk), rest, restLen)
  {
    var es := Elements(ps, lo, i, hd);
    assert curChunk[0] == es[d];
    assert |curChunk| > 1 ==> curChunk[1] == es[d + 1];
    RoundIs(ps, lo, i, hd, d, need, lim);
  }

  lemma PoppedOut(ps: seq<string>, lo: nat, i: nat, hd: string, need: nat, lim: Limits,
                  d: nat, curChunk: seq<Chunk>, curLen: int)
    requires Popped(ps, lo, i, hd, need, lim, d, curChunk, curLen)
    requires |hd| + Length(ps, lo, i) + need > lim.size
    requires curChunk == [] || (curLen <= lim.overlap && curLen + need <= lim.size)
    ensures var left := Retain(ps, FirstLeft(lo, hd), i, need, lim);
      curChunk == Elements(ps, left, i, "") && curLen == Length(ps, left, i)
  {
    assert hd == "" || d > 0;
    DropElements(ps, lo, i, hd, d);
    assert |Elements(ps, lo, i, hd)| == i - lo + if hd == "" then 0 else 1;
  }

  /** The pop loop: when it ends no header is left, and what is left is the overlap. */
  method PopFront(curChunk0: seq<Chunk>, curLen0: int, need: nat, lim: Limits,
                  ghost ps: seq<string>, ghost lo: nat, ghost i: nat, ghost hd: string)
    returns (curChunk: seq<Chunk>, curLen: int)
    requires lo <= i <= |ps| && curChunk0 == Elements(ps, lo, i, hd) && (hd != "" ==> lo < i)
    requires curLen0 == |hd| + Length(ps, lo, i) && curLen0 + need > lim.size
    ensures var left := Retain(ps, FirstLeft(lo, hd), i, need, lim);
      curChunk == Elements(ps, left, i, "") && curLen == Length(ps, left, i)
  {
    curChunk, curLen := curChunk0, curLen0;
    ghost var d: nat := 0;
    while curChunk != [] && (curLen > lim.overlap || curLen + need > lim.size)
      invariant Popped(ps, lo, i, hd, need, lim, d, curChunk, curLen)
      decreases |curChunk|
    {
      ghost var was, wasLen := curChunk, curLen;
      curChunk, curLen := PopRound(curChunk, curLen);
      PoppedNext(ps, lo, i, hd, need, lim, d, was, wasLen, curChunk, curLen);
      d := d + Taken(was);
    }
    PoppedOut(ps, lo, i, hd, need, lim, d, curChunk, curLen);
  }
}
