/** Numbers written in decimal, and texts cut at the first occurrence of a character. */
module Decimals {

  predicate IsDigit(c: char) {
    '0' <= c <= '9'
  }

  function Digits(n: nat): (s: string)
    ensures |s| > 0 && forall i :: 0 <= i < |s| ==> IsDigit(s[i])
  {
    var last := ['0' + (n % 10) as char];
    if n < 10 then last else Digits(n / 10) + last
  }

  /** The number a run of digits stands for. */
  function Value(s: string): nat
    requires forall i :: 0 <= i < |s| ==> IsDigit(s[i])
  {
    if s == "" then 0
    else
      var n := |s| - 1;
      assert IsDigit(s[n]);
      10 * Value(s[..n]) + (s[n] as nat - '0' as nat)
  }

  /** Reading a written number gives it back; so different numbers are written differently. */
  lemma {:induction false} ValueOfDigits(n: nat)
    ensures Value(Digits(n)) == n
  {
    var s := Digits(n);
    if n >= 10 {
      ValueOfDigits(n / 10);
      assert s[..|s| - 1] == Digits(n / 10);
    } else {
      assert s[..|s| - 1] == "";
    }
  }

  function Decimal(n: int): string {
    if n < 0 then "-" + Digits(-n) else Digits(n)
  }

  function ValueOfDecimal(s: string): int
    requires s != "" && forall i :: 0 <= i < |s| ==> IsDigit(s[i]) || (i == 0 && s[i] == '-')
  {
    if s[0] == '-' then 0 - Value(s[1..]) else Value(s)
  }

  lemma DecimalIsReadBack(n: int)
    ensures var s := Decimal(n);
            && s != ""
            && (forall i :: 0 <= i < |s| ==> IsDigit(s[i]) || (i == 0 && s[i] == '-'))
            && ValueOfDecimal(s) == n
  {
    if n < 0 {
      ValueOfDigits(-n);
      assert Decimal(n)[1..] == Digits(-n);
    } else {
      ValueOfDigits(n);
    }
  }

  /** What stands before the first c. */
  function Head(s: string, c: char): string {
    if s == "" || s[0] == c then "" else [s[0]] + Head(s[1..], c)
  }

  lemma {:induction false} HeadIs(a: string, c: char, x: string)
    requires c !in a
    ensures Head(a + [c] + x, c) == a
  {
    var s := a + [c] + x;
    if a != "" {
      assert s[1..] == a[1..] + [c] + x;
      HeadIs(a[1..], c, x);
    } else {
      assert s[0] == c;
    }
  }

  /** What stands behind the last c. */
  function Tail(s: string, c: char): string {
    if s == "" || s[|s| - 1] == c then "" else Tail(s[..|s| - 1], c) + [s[|s| - 1]]
  }

  lemma {:induction false} TailIs(a: string, c: char, x: string)
    requires c !in x
    ensures Tail(a + [c] + x, c) == x
  {
    var s := a + [c] + x;
    if x != "" {
      assert s[..|s| - 1] == a + [c] + x[..|x| - 1];
      TailIs(a, c, x[..|x| - 1]);
    } else {
      assert s[|s| - 1] == c;
    }
  }

  /** A text is cut at its last c in one way only. */
  lemma CutAtLast(a: string, x: string, b: string, y: string, c: char)
    requires c !in x && c !in y
    requires a + [c] + x == b + [c] + y
    ensures a == b && x == y
  {
    TailIs(a, c, x);
    TailIs(b, c, y);
    assert (a + [c] + x)[..|a|] == a && (b + [c] + y)[..|b|] == b;
  }
}
