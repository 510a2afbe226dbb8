/**
 * docreader/splitter/splitter.py, first stage: breaking a text on separators
 * (with docreader/utils/split.py).
 */
module SeparatorSplitting {
  import opened Text

  // ----- docreader/utils/split.py -----

  function Prepend(parts: seq<string>, sep: string): seq<string> {
    if parts == [] then [] else [sep + parts[0]] + Prepend(parts[1..], sep)
  }

  function NonEmpty(parts: seq<string>): seq<string> {
    if parts == [] then [] else (if parts[0] == "" then [] else [parts[0]]) + NonEmpty(parts[1..])
  }

  function KeepSeparator(text: string, sep: string): seq<string>
    requires sep != ""
  {
    var parts := SplitOn(text, sep);
    NonEmpty([parts[0]] + Prepend(parts[1..], sep))
  }

  function Chars(text: string): seq<string> {
    if text == "" then [] else [[text[0]]] + Chars(text[1..])
  }

  lemma {:induction false} PrependJoins(parts: seq<string>, sep: string)
    requires parts != []
    ensures parts[0] + Concat(Prepend(parts[1..], sep)) == Join(parts, sep)
  {
    if |parts| > 1 {
      PrependJoins(parts[1..], sep);
      assert Prepend(parts[1..], sep)[1..] == Prepend(parts[2..], sep);
    }
  }

  lemma {:induction false} NonEmptyKeepsText(parts: seq<string>)
    ensures Concat(NonEmpty(parts)) == Concat(parts)
    ensures forall k :: 0 <= k < |NonEmpty(parts)| ==> NonEmpty(parts)[k] != ""
  {
    if parts != [] {
      NonEmptyKeepsText(parts[1..]);
      if parts[0] != "" {
        assert NonEmpty(parts)[1..] == NonEmpty(parts[1..]);
      } else {
        assert NonEmpty(parts) == NonEmpty(parts[1..]);
      }
    }
  }

  /** The contract the splitter relies on: nothing is lost and no piece is empty. */
  lemma KeepSeparatorKeepsText(text: string, sep: string)
    requires sep != ""
    ensures Concat(KeepSeparator(text, sep)) == text
    ensures forall k :: 0 <= k < |KeepSeparator(text, sep)| ==> KeepSeparator(text, sep)[k] != ""
  {
    var parts := SplitOn(text, sep);
    var all := [parts[0]] + Prepend(parts[1..], sep);
    assert all[1..] == Prepend(parts[1..], sep);
    PrependJoins(parts, sep);
    JoinOfSplit(text, sep);
    NonEmptyKeepsText(all);
  }

  lemma {:induction false} CharsKeepText(text: string)
    ensures Concat(Chars(text)) == text && |Chars(text)| == |text|
    ensures forall k :: 0 <= k < |text| ==> |Chars(text)[k]| == 1
  {
    if text != "" {
      CharsKeepText(text[1..]);
    }
  }

  // ----- TextSplitter._split -----

  ghost predicate Usable(seps: seq<string>) {
    forall i :: 0 <= i < |seps| ==> seps[i] != ""
  }

  /** The pieces of the first separator that yields more than one, else the characters. */
  function FirstSplit(text: string, seps: seq<string>): seq<string>
    requires Usable(seps)
  {
    if seps == [] then Chars(text)
    else if |KeepSeparator(text, seps[0])| > 1 then KeepSeparator(text, seps[0])
    else FirstSplit(text, seps[1..])
  }

  lemma {:induction false} PartsAreShorter(parts: seq<string>)
    requires |parts| > 1 && forall k :: 0 <= k < |parts| ==> parts[k] != ""
    ensures forall k :: 0 <= k < |parts| ==> |parts[k]| < |Concat(parts)|
  {
    if |parts| == 2 {
      ConcatSingle(parts[1]);
      assert parts[1..] == [parts[1]];
    } else {
      PartsAreShorter(parts[1..]);
      forall k | 0 <= k < |parts| ensures |parts[k]| < |Concat(parts)| {
        if k > 0 {
          assert parts[k] == parts[1..][k - 1];
        }
      }
    }
  }

  lemma {:induction false} FirstSplitShrinks(text: string, seps: seq<string>)
    requires |text| > 1 && Usable(seps)
    ensures var parts := FirstSplit(text, seps);
      && |parts| > 1 && Concat(parts) == text
      && forall k :: 0 <= k < |parts| ==> 0 < |parts[k]| < |text|
  {
    if seps == [] {
      CharsKeepText(text);
    } else {
      KeepSeparatorKeepsText(text, seps[0]);
      if |KeepSeparator(text, seps[0])| > 1 {
        PartsAreShorter(KeepSeparator(text, seps[0]));
      } else {
        FirstSplitShrinks(text, seps[1..]);
      }
    }
  }

  ghost predicate AllShorter(parts: seq<string>, bound: nat) {
    forall k :: 0 <= k < |parts| ==> |parts[k]| < bound
  }

  function Split(text: string, size: int, seps: seq<string>): seq<string>
    requires size >= 1 && Usable(seps)
    decreases |text|, 1, 0
  {
    if |text| <= size then [text]
    else
      FirstSplitShrinks(text, seps);
      SplitEach(FirstSplit(text, seps), |text|, size, seps)
  }

  function SplitEach(parts: seq<string>, bound: nat, size: int, seps: seq<string>): seq<string>
    requires size >= 1 && Usable(seps)
    requires AllShorter(parts, bound)
    decreases bound, 0, |parts|
  {
    if parts == [] then [] else Split(parts[0], size, seps) + SplitEach(parts[1..], bound, size, seps)
  }

  /** Splitting loses nothing and leaves only pieces that are not empty and fit. */
  lemma {:induction false} SplitFits(text: string, size: int, seps: seq<string>)
    requires size >= 1 && Usable(seps) && text != ""
    ensures Concat(Split(text, size, seps)) == text
    ensures forall k :: 0 <= k < |Split(text, size, seps)| ==> 0 < |Split(text, size, seps)[k]| <= size
    decreases |text|, 1, 0
  {
    if |text| <= size {
      ConcatSingle(text);
    } else {
      FirstSplitShrinks(text, seps);
      SplitEachFits(FirstSplit(text, seps), |text|, size, seps);
    }
  }

  lemma {:induction false} SplitEachFits(parts: seq<string>, bound: nat, size: int, seps: seq<string>)
    requires size >= 1 && Usable(seps)
    requires forall k :: 0 <= k < |parts| ==> 0 < |parts[k]| < bound
    ensures Concat(SplitEach(parts, bound, size, seps)) == Concat(parts)
    ensures forall k :: 0 <= k < |SplitEach(parts, bound, size, seps)| ==>
              0 < |SplitEach(parts, bound, size, seps)[k]| <= size
    decreases bound, 0, |parts|
  {
    if parts != [] {
      SplitFits(parts[0], size, seps);
      SplitEachFits(parts[1..], bound, size, seps);
      ConcatAppend(Split(parts[0], size, seps), SplitEach(parts[1..], bound, size, seps));
    }
  }

  /** The loop over the split functions, the character split coming last. */
  method TrySeparators(text: string, seps: seq<string>) returns (splits: seq<string>)
    requires Usable(seps)
    ensures splits == FirstSplit(text, seps)
  {
    splits := [];
    for k := 0 to |seps|
      invariant FirstSplit(text, seps) == FirstSplit(text, seps[k..])
    {
      splits := KeepSeparator(text, seps[k]);
      if |splits| > 1 {
        return;
      }
      assert seps[k..][1..] == seps[k + 1..];
    }
    splits := Chars(text);
  }

  method SplitRecursively(text: string, size: int, seps: seq<string>) returns (newSplits: seq<string>)
    requires size >= 1 && Usable(seps)
    ensures newSplits == Split(text, size, seps)
    decreases |text|
  {
    if |text| <= size {
      return [text];
    }
    var splits := TrySeparators(text, seps);
    FirstSplitShrinks(text, seps);
    newSplits := [];
    assert splits[0..] == splits;
    for j := 0 to |splits|
      invariant AllShorter(splits[j..], |text|)
      invariant newSplits + SplitEach(splits[j..], |text|, size, seps) == Split(text, size, seps)
    {
      ghost var rest := splits[j + 1..];
      assert splits[j..] == [splits[j]] + rest;
      var more := [splits[j]];
      if |splits[j]| > size {
        more := SplitRecursively(splits[j], size, seps);
      }
      ghost var tail := SplitEach(rest, |text|, size, seps);
      assert newSplits + (more + tail) == newSplits + more + tail;
      newSplits := newSplits + more;
    }
  }
}
