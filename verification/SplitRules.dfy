/**
 * docreader/utils/split.py and docreader/splitter/splitter.py, first stage: where a text is cut at a
 * separator, and which separator is used.
 */
module SplitRules {
  import opened SeparatorSplitting
  import opened Text

  // ----- one separator -----

  /** A piece holds the separator nowhere. */
  ghost predicate Free(s: string, sep: string) {
    !Contains(s, sep)
  }

  /** A piece begins with the separator and holds it nowhere behind that. */
  ghost predicate LedBy(s: string, sep: string) {
    sep <= s && Free(s[|sep|..], sep)
  }

  lemma {:induction false} PartsAreFree(s: string, sep: string)
    requires sep != ""
    ensures forall k :: 0 <= k < |SplitOn(s, sep)| ==> Free(SplitOn(s, sep)[k], sep)
    decreases |s|
  {
    var i := Find(s, sep, 0);
    FindFinds(s, sep, 0);
    if i + |sep| <= |s| {
      PartsAreFree(s[i + |sep|..], sep);
      FreeInFront(s, sep, i);
    } else {
      NeverAt(s, sep, i);
    }
  }

  lemma FreeInFront(s: string, sep: string, i: nat)
    requires sep != "" && i <= |s| && forall k :: 0 <= k < i ==> !At(s, sep, k)
    ensures Free(s[..i], sep)
  {
    forall k | 0 <= k <= i ensures !At(s[..i], sep, k) {
      if k + |sep| <= i {
        assert s[..i][k..k + |sep|] == s[k..k + |sep|] && !At(s, sep, k);
      }
    }
  }

  lemma NeverAt(s: string, sep: string, i: nat)
    requires sep != "" && |s| < i + |sep| && forall k :: 0 <= k < i ==> !At(s, sep, k)
    ensures Free(s, sep)
  {
    forall k | 0 <= k <= |s| ensures !At(s, sep, k) {
    }
  }

  lemma {:induction false} PrependLeads(parts: seq<string>, sep: string)
    requires sep != "" && forall k :: 0 <= k < |parts| ==> Free(parts[k], sep)
    ensures |Prepend(parts, sep)| == |parts|
    ensures forall k :: 0 <= k < |parts| ==> LedBy(Prepend(parts, sep)[k], sep)
    ensures NonEmpty(Prepend(parts, sep)) == Prepend(parts, sep)
  {
    if parts != [] {
      PrependLeads(parts[1..], sep);
      assert (sep + parts[0])[|sep|..] == parts[0];
      assert Prepend(parts, sep)[1..] == Prepend(parts[1..], sep);
    }
  }

  /**
   * A text is cut in front of every separator, read from the left: each piece but perhaps the first
   * begins with one, and no piece holds another.
   */
  lemma KeepSeparatorCutsAll(text: string, sep: string)
    requires sep != ""
    ensures var ps := KeepSeparator(text, sep);
      && (forall k :: 0 < k < |ps| ==> LedBy(ps[k], sep))
      && (ps != [] ==> LedBy(ps[0], sep) || Free(ps[0], sep))
  {
    var parts := SplitOn(text, sep);
    PartsAreFree(text, sep);
    PrependLeads(parts[1..], sep);
    var rest := Prepend(parts[1..], sep);
    assert ([parts[0]] + rest)[1..] == rest;
    assert [] + rest == rest;
  }

  // ----- which separator -----

  /** A separator that cuts the text into more than one piece. */
  predicate Cuts(text: string, sep: string)
    requires sep != ""
  {
    |KeepSeparator(text, sep)| > 1
  }

  /** The first separator that cuts the text is used; where none does, the characters. */
  lemma {:induction false} FirstThatCuts(text: string, seps: seq<string>)
    requires Usable(seps)
    ensures forall i :: 0 <= i < |seps| && Cuts(text, seps[i]) && (forall j :: 0 <= j < i ==> !Cuts(text, seps[j]))
              ==> FirstSplit(text, seps) == KeepSeparator(text, seps[i])
    ensures (forall j :: 0 <= j < |seps| ==> !Cuts(text, seps[j])) ==> FirstSplit(text, seps) == Chars(text)
  {
    if seps != [] {
      var rest := seps[1..];
      FirstThatCuts(text, rest);
      forall i | 0 <= i < |seps| && Cuts(text, seps[i]) && forall j :: 0 <= j < i ==> !Cuts(text, seps[j])
        ensures FirstSplit(text, seps) == KeepSeparator(text, seps[i])
      {
        if i > 0 {
          assert seps[i] == rest[i - 1];
          forall j | 0 <= j < i - 1 ensures !Cuts(text, rest[j]) {
            assert rest[j] == seps[j + 1];
          }
        }
      }
      if forall j :: 0 <= j < |seps| ==> !Cuts(text, seps[j]) {
        forall j | 0 <= j < |rest| ensures !Cuts(text, rest[j]) {
          assert rest[j] == seps[j + 1];
        }
      }
    }
  }

  function Flat(pss: seq<seq<string>>): seq<string> {
    if pss == [] then [] else pss[0] + Flat(pss[1..])
  }

  /** The splits of some parts. */
  ghost predicate AreSplits(pss: seq<seq<string>>, parts: seq<string>, size: int, seps: seq<string>)
    requires size >= 1 && Usable(seps)
  {
    |pss| == |parts| && forall i :: 0 <= i < |parts| ==> pss[i] == Split(parts[i], size, seps)
  }

  /** A text that fits is left whole; any other is cut, and its parts are split in their turn. */
  lemma SplitOnlyWhereNeeded(text: string, size: int, seps: seq<string>) returns (pss: seq<seq<string>>)
    requires size >= 1 && Usable(seps)
    ensures |text| <= size ==> Split(text, size, seps) == [text]
    ensures |text| > size ==>
              AreSplits(pss, FirstSplit(text, seps), size, seps) && Split(text, size, seps) == Flat(pss)
  {
    pss := [];
    if |text| > size {
      FirstSplitShrinks(text, seps);
      pss := EachIsFlat(FirstSplit(text, seps), |text|, size, seps);
    }
  }

  lemma {:induction false} EachIsFlat(parts: seq<string>, bound: nat, size: int, seps: seq<string>)
    returns (pss: seq<seq<string>>)
    requires size >= 1 && Usable(seps) && AllShorter(parts, bound)
    ensures AreSplits(pss, parts, size, seps) && SplitEach(parts, bound, size, seps) == Flat(pss)
    decreases |parts|
  {
    if parts == [] {
      pss := [];
    } else {
      var rest := EachIsFlat(parts[1..], bound, size, seps);
      pss := [Split(parts[0], size, seps)] + rest;
      assert pss[1..] == rest;
      forall i | 0 <= i < |parts| ensures pss[i] == Split(parts[i], size, seps) {
        if i > 0 { assert pss[i] == rest[i - 1] && parts[i] == parts[1..][i - 1]; }
      }
    }
  }
}
