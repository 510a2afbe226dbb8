/** Where the pieces of a text begin and end. */
module Pieces {
  import opened Text

  /** Where piece k starts in the concatenation. */
  function Pos(ps: seq<string>, k: nat): nat
    requires k <= |ps|
  {
    if k == 0 then 0 else Pos(ps, k - 1) + |ps[k - 1]|
  }

  lemma {:induction false} PosMonotone(ps: seq<string>, j: nat, k: nat)
    requires j <= k <= |ps|
    ensures Pos(ps, j) <= Pos(ps, k)
    ensures (forall i :: j <= i < k ==> ps[i] != "") && j < k ==> Pos(ps, j) < Pos(ps, k)
    decreases k - j
  {
    if j < k {
      PosMonotone(ps, j, k - 1);
    }
  }

  lemma {:induction false} PosIsLength(ps: seq<string>, k: nat)
    requires k <= |ps|
    ensures Pos(ps, k) == |Concat(ps[..k])|
  {
    if k > 0 {
      PosIsLength(ps, k - 1);
      assert ps[..k] == ps[..k - 1] + [ps[k - 1]];
      ConcatAppend(ps[..k - 1], [ps[k - 1]]);
      ConcatSingle(ps[k - 1]);
    }
  }

  /** Consecutive pieces are a slice of the text. */
  lemma SliceOfPieces(ps: seq<string>, j: nat, k: nat)
    requires j <= k <= |ps|
    ensures Pos(ps, j) <= Pos(ps, k) <= |Concat(ps)|
    ensures Concat(ps[j..k]) == Concat(ps)[Pos(ps, j)..Pos(ps, k)]
    ensures Pos(ps, |ps|) == |Concat(ps)|
  {
    PosIsLength(ps, j);
    PosIsLength(ps, k);
    PosIsLength(ps, |ps|);
    PosMonotone(ps, j, k);
    ConcatAppend(ps[..j], ps[j..k]);
    ConcatAppend(ps[..k], ps[k..]);
    assert ps[..j] + ps[j..k] == ps[..k];
    assert ps[..k] + ps[k..] == ps;
    assert ps[..|ps|] == ps;
  }
}
