/** The order of strings, character by character, in which ids are sorted. */
module StringOrder {
  import Sorting

  /** a is b or comes before it. */
  predicate UpTo(a: string, b: string) {
    a == "" || (b != "" && (a[0] < b[0] || (a[0] == b[0] && UpTo(a[1..], b[1..]))))
  }

  lemma {:induction false} UpToIsTotal(a: string, b: string)
    ensures UpTo(a, b) || UpTo(b, a)
  {
    if a != "" && b != "" { UpToIsTotal(a[1..], b[1..]); }
  }

  lemma {:induction false} UpToIsTransitive(a: string, b: string, c: string)
    requires UpTo(a, b) && UpTo(b, c)
    ensures UpTo(a, c)
  {
    if a != "" && b != "" && c != "" && a[0] == b[0] == c[0] { UpToIsTransitive(a[1..], b[1..], c[1..]); }
  }

  lemma {:induction false} UpToIsAntisymmetric(a: string, b: string)
    requires UpTo(a, b) && UpTo(b, a)
    ensures a == b
  {
    if a != "" { UpToIsAntisymmetric(a[1..], b[1..]); }
  }

  lemma UpToIsOrder()
    ensures Sorting.TotalPreorder(UpTo)
  {
    forall a, b ensures UpTo(a, b) || UpTo(b, a) {
      UpToIsTotal(a, b);
    }
    forall a, b, c | UpTo(a, b) && UpTo(b, c) ensures UpTo(a, c) {
      UpToIsTransitive(a, b, c);
    }
  }
}
