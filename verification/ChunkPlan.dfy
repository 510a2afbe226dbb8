/**
 * docreader/splitter/splitter.py: where the merged chunks part, what they share and which of them get
 * a header, said of the pieces and of what the tracker reports with them.
 */
module ChunkPlan {
  import opened Merging
  import opened Pieces
  import opened Text

  // ----- what is to be -----

  /** The room a piece asks for: its own length and that of its header, if it is no longer than a chunk. */
  function Asks(ps: seq<string>, rs: seq<Report>, lim: Limits, i: nat): nat
    requires i < |ps| == |rs|
  {
    |ps[i]| + if |rs[i].headers| <= lim.size then |rs[i].headers| else 0
  }

  /** Piece j found room in the chunk, and no table ended with it. */
  ghost predicate Joins(ps: seq<string>, rs: seq<Report>, lim: Limits, c: Chunk, j: nat)
    requires j < |ps| == |rs|
  {
    !rs[j].ended && |HeaderOf(c)| + (Pos(ps, j) - c.start) + Asks(ps, rs, lim, j) <= lim.size
  }

  ghost predicate AllJoin(ps: seq<string>, rs: seq<Report>, lim: Limits, c: Chunk, first: nat, next: nat)
    requires next <= |ps| == |rs|
  {
    forall j :: first < j < next ==> Joins(ps, rs, lim, c, j)
  }

  /** The chunk ends in front of piece i, for which it has no room or with which a table ended. */
  ghost predicate EndsAt(ps: seq<string>, rs: seq<Report>, lim: Limits, c: Chunk, i: nat)
    requires i < |ps| == |rs|
  {
    c.end == Pos(ps, i) && (rs[i].ended || |c.text| + Asks(ps, rs, lim, i) > lim.size)
  }

  /** What is behind p may be repeated: it is no longer than the overlap and leaves room for piece i. */
  ghost predicate MayRepeat(ps: seq<string>, rs: seq<Report>, lim: Limits, c: Chunk, p: nat, i: nat)
    requires i < |ps| == |rs|
  {
    c.end - p <= lim.overlap && c.end - p + Asks(ps, rs, lim, i) <= lim.size
  }

  /** The next chunk begins with as much of the one before as may be repeated, in whole pieces. */
  ghost predicate RepeatsMost(ps: seq<string>, rs: seq<Report>, lim: Limits, c: Chunk, d: Chunk, i: nat)
    requires i < |ps| == |rs|
  {
    && (exists r :: 0 <= r <= i && d.start == Pos(ps, r))
    && c.start <= d.start <= c.end && (d.start == c.end || MayRepeat(ps, rs, lim, c, d.start, i))
    && (forall q :: 0 <= q <= i && c.start < Pos(ps, q) < d.start ==> !MayRepeat(ps, rs, lim, c, Pos(ps, q), i))
  }

  /** The header reported with piece i, if there is one, it leaves room for the piece, and it is apt. */
  function HeaderDue(ps: seq<string>, rs: seq<Report>, lim: Limits, i: nat): string
    requires i < |ps| == |rs|
  {
    if |ps[i]| + |rs[i].headers| < lim.size && rs[i].apt then rs[i].headers else ""
  }

  /** How the chunk opened by piece i goes on from the one before. */
  ghost predicate GoesOn(ps: seq<string>, rs: seq<Report>, lim: Limits, c: Chunk, d: Chunk, i: nat)
    requires i < |ps| == |rs|
  {
    if rs[i].ended then d.start == c.end && HeaderOf(d) == ""
    else RepeatsMost(ps, rs, lim, c, d, i) && HeaderOf(d) == HeaderDue(ps, rs, lim, i)
  }

  /** Chunks in a row, with the piece that opened each of them. */
  ghost predicate PlannedFrom(ps: seq<string>, rs: seq<Report>, lim: Limits, cs: seq<Chunk>, openers: seq<nat>)
    requires |ps| == |rs|
  {
    && |openers| == |cs| > 0
    && (forall k, l :: 0 <= k < |cs| - 1 && l == k + 1 ==>
          StepPlanned(ps, rs, lim, cs[k], cs[l], openers[k], openers[l]))
    && cs[|cs| - 1].end == Pos(ps, |ps|)
    && AllJoin(ps, rs, lim, cs[|cs| - 1], openers[|cs| - 1], |ps|)
  }

  /** All chunks: the first is opened by the first piece, at the start and without a header. */
  ghost predicate Planned(ps: seq<string>, rs: seq<Report>, lim: Limits, cs: seq<Chunk>, openers: seq<nat>)
    requires |ps| == |rs|
  {
    && PlannedFrom(ps, rs, lim, cs, openers)
    && openers[0] == 0 && cs[0].start == 0 && HeaderOf(cs[0]) == ""
  }

  ghost predicate StepPlanned(ps: seq<string>, rs: seq<Report>, lim: Limits, c: Chunk, d: Chunk, first: nat, next: nat)
    requires |ps| == |rs|
  {
    && first < next < |ps| && AllJoin(ps, rs, lim, c, first, next)
    && EndsAt(ps, rs, lim, c, next) && GoesOn(ps, rs, lim, c, d, next)
  }

  // ----- the chunk being built -----

  /** How many chunks are finished before piece i. */
  function Count(ps: seq<string>, rs: seq<Report>, lim: Limits, i: nat): nat
    requires i <= |ps| == |rs|
  {
    |After(ps, rs, lim, i).chunks|
  }

  lemma OneStep(ps: seq<string>, rs: seq<Report>, lim: Limits, i: nat)
    requires i < |ps| == |rs|
    ensures var st := After(ps, rs, lim, i);
      if Finishes(ps, rs, lim, i, st) then Count(ps, rs, lim, i + 1) == Count(ps, rs, lim, i) + 1
      else Count(ps, rs, lim, i + 1) == Count(ps, rs, lim, i) && (st.lo < i ==> After(ps, rs, lim, i + 1) == st)
  {
    NextStart(ps, rs, lim, i, After(ps, rs, lim, i));
  }

  lemma {:induction false} CountsAscend(ps: seq<string>, rs: seq<Report>, lim: Limits, i: nat, j: nat)
    requires i <= j <= |ps| == |rs|
    ensures Count(ps, rs, lim, i) <= Count(ps, rs, lim, j)
    decreases j
  {
    if i < j {
      CountsAscend(ps, rs, lim, i, j - 1);
      OneStep(ps, rs, lim, j - 1);
    }
  }

  /** While no chunk is finished the one being built stays the same. */
  lemma {:induction false} SameChunk(ps: seq<string>, rs: seq<Report>, lim: Limits, i: nat, j: nat)
    requires i <= j <= |ps| == |rs| && After(ps, rs, lim, i).lo < i
    requires Count(ps, rs, lim, i) == Count(ps, rs, lim, j)
    ensures After(ps, rs, lim, j) == After(ps, rs, lim, i)
    decreases j
  {
    if i < j {
      Squeezed(ps, rs, lim, i, j - 1, j);
      SameChunk(ps, rs, lim, i, j - 1);
      OneStep(ps, rs, lim, j - 1);
    }
  }

  lemma Squeezed(ps: seq<string>, rs: seq<Report>, lim: Limits, i: nat, j: nat, k: nat)
    requires i <= j <= k <= |ps| == |rs| && Count(ps, rs, lim, i) == Count(ps, rs, lim, k)
    ensures Count(ps, rs, lim, j) == Count(ps, rs, lim, i)
  {
    CountsAscend(ps, rs, lim, i, j);
    CountsAscend(ps, rs, lim, j, k);
  }

  /** What the chunk being built becomes when piece i finishes it. */
  lemma FinishedIsChop(ps: seq<string>, rs: seq<Report>, lim: Limits, k: nat, i: nat, after: State)
    requires |ps| == |rs| && FinishedBy(ps, rs, lim, k, i) && after == After(ps, rs, lim, i + 1)
    ensures var st := After(ps, rs, lim, i);
      |after.chunks| == k + 1 && after.chunks == st.chunks + [Chop(ps, st.lo, i, st.hd)]
  {
    NextStart(ps, rs, lim, i, After(ps, rs, lim, i));
  }

  lemma FinishedChunk(ps: seq<string>, rs: seq<Report>, lim: Limits, k: nat, i: nat)
    requires |ps| == |rs| && FinishedBy(ps, rs, lim, k, i)
    ensures var st, cs := After(ps, rs, lim, i), Merged(ps, rs, lim);
      && k + 1 < |cs| && cs[k] == Chop(ps, st.lo, i, st.hd)
      && Count(ps, rs, lim, i + 1) == k + 1 && cs[k + 1].start == Pos(ps, After(ps, rs, lim, i + 1).lo)
  {
    var st, after := After(ps, rs, lim, i), After(ps, rs, lim, i + 1);
    FinishedIsChop(ps, rs, lim, k, i, after);
    ChunkStart(ps, rs, lim, i + 1);
    StillIn(Merged(ps, rs, lim), st.chunks, Chop(ps, st.lo, i, st.hd), after.chunks);
  }

  /** The chunk is as it stood after the piece that opened it. */
  ghost predicate Stands(ps: seq<string>, rs: seq<Report>, lim: Limits, c: Chunk, st: State, next: nat)
    requires next <= |ps| == |rs|
  {
    && st.lo < next && c.start == Pos(ps, st.lo) && c.end == Pos(ps, next) && HeaderOf(c) == st.hd
    && |c.text| == |st.hd| + Length(ps, st.lo, next)
  }

  lemma ChopStands(ps: seq<string>, rs: seq<Report>, lim: Limits, st: State, next: nat)
    requires next <= |ps| == |rs| && st.lo < next
    ensures Stands(ps, rs, lim, Chop(ps, st.lo, next, st.hd), st, next)
  {
    HeaderOfChop(ps, st.lo, next, st.hd);
    SliceOfPieces(ps, st.lo, next);
  }

  lemma JoinsUnlessFinished(ps: seq<string>, rs: seq<Report>, lim: Limits, c: Chunk, st: State, j: nat)
    requires j < |ps| == |rs| && Ready(ps, rs, j, st) && st.lo < j && !Finishes(ps, rs, lim, j, st)
    requires c.start == Pos(ps, st.lo) && HeaderOf(c) == st.hd
    ensures Joins(ps, rs, lim, c, j)
  {
  }

  lemma NotFinished(ps: seq<string>, rs: seq<Report>, lim: Limits, first: nat, j: nat, next: nat)
    requires first < j < next <= |ps| == |rs| && After(ps, rs, lim, first + 1).lo <= first
    requires Count(ps, rs, lim, first + 1) == Count(ps, rs, lim, next)
    ensures After(ps, rs, lim, j) == After(ps, rs, lim, first + 1)
    ensures !Finishes(ps, rs, lim, j, After(ps, rs, lim, j))
  {
    Squeezed(ps, rs, lim, first + 1, j, next);
    Squeezed(ps, rs, lim, first + 1, j + 1, next);
    SameChunk(ps, rs, lim, first + 1, j);
    OneStep(ps, rs, lim, j);
  }

  /** In between no piece finished it, so every piece joined it. */
  lemma InBetweenJoin(ps: seq<string>, rs: seq<Report>, lim: Limits, c: Chunk, first: nat, next: nat)
    requires first < next <= |ps| == |rs| && After(ps, rs, lim, first + 1).lo <= first
    requires Count(ps, rs, lim, first + 1) == Count(ps, rs, lim, next)
    requires Stands(ps, rs, lim, c, After(ps, rs, lim, first + 1), next)
    ensures AllJoin(ps, rs, lim, c, first, next)
  {
    forall j | first < j < next ensures Joins(ps, rs, lim, c, j) {
      NotFinished(ps, rs, lim, first, j, next);
      JoinsUnlessFinished(ps, rs, lim, c, After(ps, rs, lim, j), j);
    }
  }

  /** What the piece that finishes a chunk leaves of it for the next, and which header. */
  lemma NextGoesOn(ps: seq<string>, rs: seq<Report>, lim: Limits, i: nat, st: State, c: Chunk, d: Chunk)
    requires |ps| == |rs| && Finishes(ps, rs, lim, i, st) && Stands(ps, rs, lim, c, st, i)
    requires var s := Next(ps, rs, lim, i, st); d.start == Pos(ps, s.lo) && HeaderOf(d) == s.hd
    ensures EndsAt(ps, rs, lim, c, i) && GoesOn(ps, rs, lim, c, d, i)
  {
    if !rs[i].ended {
      RetainRepeats(ps, rs, lim, i, st, c, d);
    }
  }

  lemma RetainRepeats(ps: seq<string>, rs: seq<Report>, lim: Limits, i: nat, st: State, c: Chunk, d: Chunk)
    requires i < |ps| == |rs| && st.lo < i && Stands(ps, rs, lim, c, st, i)
    requires d.start == Pos(ps, Retain(ps, FirstLeft(st.lo, st.hd), i, Asks(ps, rs, lim, i), lim))
    ensures RepeatsMost(ps, rs, lim, c, d, i)
  {
    var from, need := FirstLeft(st.lo, st.hd), Asks(ps, rs, lim, i);
    var r := Retain(ps, from, i, need, lim);
    PosMonotone(ps, st.lo, r);
    PosMonotone(ps, r, i);
    RetainedIsRoomy(ps, from, i, need, lim);
    forall q | 0 <= q <= i && c.start < Pos(ps, q) < d.start ensures !MayRepeat(ps, rs, lim, c, Pos(ps, q), i) {
      Between(ps, st.lo, q, r);
      RetainIsLongest(ps, from, i, need, lim, q);
    }
  }

  lemma Between(ps: seq<string>, a: nat, q: nat, b: nat)
    requires a <= |ps| && q <= |ps| && b <= |ps| && Pos(ps, a) < Pos(ps, q) < Pos(ps, b)
    ensures a < q < b
  {
    if q <= a { PosMonotone(ps, q, a); }
    if b <= q { PosMonotone(ps, b, q); }
  }

  // ----- the plan of the merged chunks -----

  /** Piece i opens chunk k. */
  ghost predicate Opens(ps: seq<string>, rs: seq<Report>, lim: Limits, k: nat, i: nat)
    requires |ps| == |rs|
  {
    i < |ps| && After(ps, rs, lim, i + 1).lo <= i && Count(ps, rs, lim, i + 1) == k
  }

  /** Chunk k is what stood after the piece that opened it, with the pieces up to `next`. */
  lemma OpenedChunk(ps: seq<string>, rs: seq<Report>, lim: Limits, k: nat, first: nat) returns (next: nat)
    requires |ps| == |rs| && Opens(ps, rs, lim, k, first) && k < |Merged(ps, rs, lim)|
    ensures first < next <= |ps| && After(ps, rs, lim, next) == After(ps, rs, lim, first + 1)
    ensures Stands(ps, rs, lim, Merged(ps, rs, lim)[k], After(ps, rs, lim, next), next)
    ensures if k + 1 < |Merged(ps, rs, lim)| then FinishedBy(ps, rs, lim, k, next) else next == |ps|
  {
    if k + 1 < |Merged(ps, rs, lim)| {
      next := SomePieceFinishes(ps, rs, lim, k, |ps|);
      FinishedStands(ps, rs, lim, k, first, next);
    } else {
      next := |ps|;
      LastStands(ps, rs, lim, k, first);
    }
  }

  lemma FinishedStands(ps: seq<string>, rs: seq<Report>, lim: Limits, k: nat, first: nat, next: nat)
    requires |ps| == |rs| && Opens(ps, rs, lim, k, first) && FinishedBy(ps, rs, lim, k, next)
    ensures k < |Merged(ps, rs, lim)|
    ensures first < next && After(ps, rs, lim, next) == After(ps, rs, lim, first + 1)
    ensures Stands(ps, rs, lim, Merged(ps, rs, lim)[k], After(ps, rs, lim, next), next)
  {
    NotBefore(ps, rs, lim, k, first, next);
    FinishedChunk(ps, rs, lim, k, next);
    SameChunk(ps, rs, lim, first + 1, next);
    ChopStands(ps, rs, lim, After(ps, rs, lim, next), next);
  }

  lemma LastStands(ps: seq<string>, rs: seq<Report>, lim: Limits, k: nat, first: nat)
    requires |ps| == |rs| && Opens(ps, rs, lim, k, first) && k + 1 == |Merged(ps, rs, lim)|
    ensures After(ps, rs, lim, |ps|) == After(ps, rs, lim, first + 1)
    ensures Stands(ps, rs, lim, Merged(ps, rs, lim)[k], After(ps, rs, lim, |ps|), |ps|)
  {
    SameChunk(ps, rs, lim, first + 1, |ps|);
    ChopStands(ps, rs, lim, After(ps, rs, lim, |ps|), |ps|);
  }

  /** A chunk is finished behind the piece that opened it. */
  lemma NotBefore(ps: seq<string>, rs: seq<Report>, lim: Limits, k: nat, first: nat, next: nat)
    requires |ps| == |rs| && Opens(ps, rs, lim, k, first) && FinishedBy(ps, rs, lim, k, next)
    ensures first < next
  {
    FinishedChunk(ps, rs, lim, k, next);
    if next < first { CountsAscend(ps, rs, lim, next + 1, first + 1); }
  }

  lemma FinisherOpens(ps: seq<string>, rs: seq<Report>, lim: Limits, k: nat, i: nat)
    requires |ps| == |rs| && FinishedBy(ps, rs, lim, k, i)
    ensures Opens(ps, rs, lim, k + 1, i)
  {
    FinishedChunk(ps, rs, lim, k, i);
  }

  lemma StepIsPlanned(ps: seq<string>, rs: seq<Report>, lim: Limits, k: nat, first: nat) returns (next: nat)
    requires |ps| == |rs| && k + 1 < |Merged(ps, rs, lim)| && Opens(ps, rs, lim, k, first)
    ensures var cs := Merged(ps, rs, lim);
      StepPlanned(ps, rs, lim, cs[k], cs[k + 1], first, next) && Opens(ps, rs, lim, k + 1, next)
  {
    var cs := Merged(ps, rs, lim);
    next := OpenedChunk(ps, rs, lim, k, first);
    FinisherOpens(ps, rs, lim, k, next);
    var after := OpenedChunk(ps, rs, lim, k + 1, next);
    InBetweenJoin(ps, rs, lim, cs[k], first, next);
    NextGoesOn(ps, rs, lim, next, After(ps, rs, lim, next), cs[k], cs[k + 1]);
  }

  lemma LastIsPlanned(ps: seq<string>, rs: seq<Report>, lim: Limits, k: nat, first: nat)
    requires |ps| == |rs| && k + 1 == |Merged(ps, rs, lim)| && Opens(ps, rs, lim, k, first)
    ensures PlannedFrom(ps, rs, lim, [Merged(ps, rs, lim)[k]], [first])
  {
    var next := OpenedChunk(ps, rs, lim, k, first);
    InBetweenJoin(ps, rs, lim, Merged(ps, rs, lim)[k], first, next);
  }

  /** The chunks from k on, given the piece that opens it. */
  lemma {:induction false} RestIsPlanned(ps: seq<string>, rs: seq<Report>, lim: Limits, k: nat, first: nat)
    returns (openers: seq<nat>)
    requires |ps| == |rs| && k < |Merged(ps, rs, lim)| && Opens(ps, rs, lim, k, first)
    ensures |openers| > 0 && openers[0] == first
    ensures PlannedFrom(ps, rs, lim, Merged(ps, rs, lim)[k..], openers)
    decreases |Merged(ps, rs, lim)| - k
  {
    var cs := Merged(ps, rs, lim);
    if k + 1 == |cs| {
      openers := [first];
      LastIsPlanned(ps, rs, lim, k, first);
      assert cs[k..] == [cs[k]];
    } else {
      var next := StepIsPlanned(ps, rs, lim, k, first);
      var rest := RestIsPlanned(ps, rs, lim, k + 1, next);
      openers := [first] + rest;
      TailOf(cs, k);
      PlannedOneMore(ps, rs, lim, cs[k], cs[k + 1..], first, rest);
    }
  }

  lemma TailOf(cs: seq<Chunk>, k: nat)
    requires k + 1 < |cs|
    ensures cs[k..] == [cs[k]] + cs[k + 1..] && cs[k + 1..][0] == cs[k + 1]
  {
  }

  lemma PlannedOneMore(ps: seq<string>, rs: seq<Report>, lim: Limits, c: Chunk, cs: seq<Chunk>, first: nat,
                       openers: seq<nat>)
    requires |ps| == |rs| && PlannedFrom(ps, rs, lim, cs, openers)
    requires StepPlanned(ps, rs, lim, c, cs[0], first, openers[0])
    ensures PlannedFrom(ps, rs, lim, [c] + cs, [first] + openers)
  {
    var all, from := [c] + cs, [first] + openers;
    forall k, l | 0 <= k < |all| - 1 && l == k + 1
      ensures StepPlanned(ps, rs, lim, all[k], all[l], from[k], from[l])
    {
      if k > 0 { assert StepPlanned(ps, rs, lim, cs[k - 1], cs[l - 1], openers[k - 1], openers[l - 1]); }
    }
  }

  /**
   * The whole plan of the merge: each chunk takes pieces until one finds no room or a table ends with it,
   * and is closed only then; the next begins with the longest repeat that is allowed, or behind a table's
   * end with none; and it has the header reported with the piece that opened it exactly when that header
   * leaves room for the piece and is apt, and none behind a table's end.
   */
  lemma MergedIsPlanned(ps: seq<string>, rs: seq<Report>, lim: Limits) returns (openers: seq<nat>)
    requires |ps| == |rs| && ps != []
    ensures Planned(ps, rs, lim, Merged(ps, rs, lim), openers)
  {
    FirstOpens(ps, rs, lim);
    openers := RestIsPlanned(ps, rs, lim, 0, 0);
    var next := OpenedChunk(ps, rs, lim, 0, 0);
    assert Merged(ps, rs, lim)[0..] == Merged(ps, rs, lim);
  }

  lemma FirstOpens(ps: seq<string>, rs: seq<Report>, lim: Limits)
    requires |ps| == |rs| && ps != []
    ensures Opens(ps, rs, lim, 0, 0)
    ensures var st := After(ps, rs, lim, 1); st.lo == 0 && st.hd == ""
  {
    assert After(ps, rs, lim, 0) == EMPTY;
  }
}
