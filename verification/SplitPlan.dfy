/**
 * docreader/splitter/splitter.py: the plan of the merge for the whole splitter, with the tracker's
 * headers in force in place of reports.
 */
module SplitPlan {
  import opened ChunkPlan
  import opened HeaderTracking
  import opened IsolatedCuts
  import opened Merging
  import opened Options
  import opened Pieces
  import opened ProtectedSpans
  import opened SeparatorSplitting
  import Text
  import opened TextSplitting

  /** The header stands in the piece already. */
  ghost predicate Repeats(piece: string, header: string) {
    exists front, back :: piece == front + header + back
  }

  lemma ContainsIsRepeats(piece: string, header: string)
    ensures Text.Contains(piece, header) <==> Repeats(piece, header)
  {
    if Text.Contains(piece, header) {
      var at :| 0 <= at <= |piece| && Text.At(piece, header, at);
      assert piece == piece[..at] + header + piece[at + |header|..];
    }
    if Repeats(piece, header) {
      var front, back :| piece == front + header + back;
      assert Text.At(piece, header, |front|);
    }
  }

  /** The header and the piece are of tables with different numbers of columns. */
  predicate OfAnotherTable(piece: string, header: string) {
    HeaderColumns(header) > 0 && RowColumns(piece) > 0 && HeaderColumns(header) != RowColumns(piece)
  }

  lemma ReportReads(hooks: seq<Hook>, st: HeaderTracking.State, ps: seq<string>, i: nat)
    requires i < |ps|
    ensures var now, r := Run(hooks, st, ps[..i + 1]), Reports(hooks, st, ps)[i];
      && r.ended == now.endedNow && r.headers == Headers(now.active)
      && (r.apt <==> !Repeats(ps[i], r.headers) && !OfAnotherTable(ps[i], r.headers))
  {
    ReportAt(hooks, st, ps, i);
    ContainsIsRepeats(ps[i], Headers(Run(hooks, st, ps[..i + 1]).active));
  }

  /** Where the pieces that are merged part: at the ends of splits and at the edges of kept spans. */
  lemma PiecesPartExactly(cfg: Settings, text: string, matches: seq<Match>, p: nat)
    requires Valid(cfg) && Within(Ordered(matches), text) && text != "" && p > 0
    ensures var splits := Split(text, cfg.limits.size, cfg.separators);
      var gs := Protect(text, matches, cfg.limits.size);
      IsCut(PiecesOf(cfg, text, matches), p) <==> AtEdge(gs, p) || (SplitEnds(splits, 0, p) && !Inside(gs, p))
  {
    StagesFit(cfg, text, matches);
    var size := cfg.limits.size;
    JoinCutsExactly(text, Split(text, size, cfg.separators), Protect(text, matches, size), size, p);
  }

  /** The plan holds for every text, any matches and any tracker. */
  lemma ChunksArePlanned(cfg: Settings, st: HeaderTracking.State, text: string, matches: seq<Match>)
    returns (openers: seq<nat>)
    requires Valid(cfg) && Within(Ordered(matches), text) && text != ""
    ensures var ps := PiecesOf(cfg, text, matches);
      Planned(ps, Reports(cfg.hooks, st, ps), cfg.limits, Chunks(cfg, st, text, matches), openers)
  {
    PiecesFit(cfg, text, matches);
    var ps := PiecesOf(cfg, text, matches);
    openers := MergedIsPlanned(ps, Reports(cfg.hooks, st, ps), cfg.limits);
  }

  /**
   * When a chunk gets a header. Behind every chunk but the last comes the piece that ended it. If a table
   * ended with that piece the next chunk has no header. If not, it has the headers in force at the piece,
   * when piece and headers together are shorter than a chunk, the piece does not hold them already and
   * is no row of another table; and else it has none.
   */
  lemma HeaderIsPutExactly(cfg: Settings, st: HeaderTracking.State, text: string, matches: seq<Match>, k: nat)
    returns (i: nat)
    requires Valid(cfg) && Within(Ordered(matches), text) && text != ""
    requires k + 1 < |Chunks(cfg, st, text, matches)|
    ensures var ps, cs := PiecesOf(cfg, text, matches), Chunks(cfg, st, text, matches);
      && i < |ps| && cs[k].end == Pos(ps, i)
      && var now := Run(cfg.hooks, st, ps[..i + 1]);
         var h := Headers(now.active);
         && (now.endedNow || |cs[k].text| + |ps[i]| + (if |h| <= cfg.limits.size then |h| else 0) > cfg.limits.size)
         && HeaderOf(cs[k + 1])
         == if !now.endedNow && |ps[i]| + |h| < cfg.limits.size && !Repeats(ps[i], h) && !OfAnotherTable(ps[i], h)
            then h else ""
  {
    var ps, cs := PiecesOf(cfg, text, matches), Chunks(cfg, st, text, matches);
    var rs := Reports(cfg.hooks, st, ps);
    var openers := ChunksArePlanned(cfg, st, text, matches);
    i := openers[k + 1];
    assert StepPlanned(ps, rs, cfg.limits, cs[k], cs[k + 1], openers[k], openers[k + 1]);
    ReportReads(cfg.hooks, st, ps, i);
  }
}
