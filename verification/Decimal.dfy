/** Decimal text: the zero-padded numbers that Go's time and fmt packages print, and reading them back. */
module Decimal {

  predicate IsDigit(c: char) { '0' <= c <= '9' }

  predicate AllDigits(s: string) { forall i :: 0 <= i < |s| ==> IsDigit(s[i]) }

  function Digit(k: nat): (c: char)
    requires k < 10
    ensures IsDigit(c)
  {
    '0' + k as char
  }

  /** The decimal digits of n, padded with zeros on the left to at least w characters (at least one if w > 0). */
  function Pad(n: nat, w: nat): (s: string)
    ensures |s| >= w
    ensures AllDigits(s)
    decreases n + w
  {
    if n == 0 && w == 0 then ""
    else Pad(n / 10, if w == 0 then 0 else w - 1) + [Digit(n % 10)]
  }

  /** The number that a string of digits denotes. */
  function Value(s: string): nat
    requires AllDigits(s)
  {
    if s == "" then 0
    else
      var c := s[|s| - 1];
      assert IsDigit(c);
      10 * Value(s[..|s| - 1]) + (c as int - '0' as int)
  }

  function Pow10(w: nat): (p: nat)
    ensures p > 0
  {
    if w == 0 then 1 else 10 * Pow10(w - 1)
  }

  /** Reading back what was printed gives the same number. */
  lemma {:induction false} ValueOfPad(n: nat, w: nat)
    ensures Value(Pad(n, w)) == n
    decreases n + w
  {
    if n == 0 && w == 0 {
    } else {
      var w' := if w == 0 then 0 else w - 1;
      ValueOfPad(n / 10, w');
      assert Pad(n, w)[..|Pad(n, w)| - 1] == Pad(n / 10, w');
    }
  }

  /** Printing what was read gives the same digits. */
  lemma {:induction false} PadOfValue(s: string)
    requires AllDigits(s)
    ensures Value(s) < Pow10(|s|)
    ensures Pad(Value(s), |s|) == s
  {
    if s == "" {
    } else {
      var front, c := s[..|s| - 1], s[|s| - 1];
      assert IsDigit(c);
      PadOfValue(front);
      assert Value(s) / 10 == Value(front) && Digit(Value(s) % 10) == c;
      assert s == front + [c];
    }
  }

  /** A number that fits prints in exactly the width asked for. */
  lemma {:induction false} PadWidth(n: nat, w: nat)
    requires n < Pow10(w)
    ensures |Pad(n, w)| == w
    decreases w
  {
    if w == 0 {
    } else {
      PadWidth(n / 10, w - 1);
    }
  }

  lemma TwoDigits(n: nat)
    requires n < 100
    ensures |Pad(n, 2)| == 2
  {
    assert Pow10(2) == 10 * Pow10(1) == 100;
    PadWidth(n, 2);
  }

  lemma FourDigits(n: nat)
    requires n < 10000
    ensures |Pad(n, 4)| == 4
  {
    assert Pow10(4) == 10 * Pow10(3) == 100 * Pow10(2) == 1000 * Pow10(1) == 10000;
    PadWidth(n, 4);
  }

  /** An integer printed with a sign and at least w digits. */
  function IntText(n: int, w: nat): string
  {
    if n < 0 then "-" + Pad(-n, w) else Pad(n, w)
  }

  lemma PadInjective(a: nat, b: nat, w: nat)
    requires Pad(a, w) == Pad(b, w)
    ensures a == b
  {
    ValueOfPad(a, w);
    ValueOfPad(b, w);
  }

  /** The sign shows in the first character. */
  lemma SignShows(a: int, w: nat)
    requires w > 0
    ensures |IntText(a, w)| > 0 && (a < 0 <==> IntText(a, w)[0] == '-')
  {
    assert !IsDigit('-');
  }

  lemma IntTextInjective(a: int, b: int, w: nat)
    requires w > 0
    requires IntText(a, w) == IntText(b, w)
    ensures a == b
  {
    SignShows(a, w);
    SignShows(b, w);
    if a < 0 {
      SplitAtSuffix("-", Pad(-a, w), "-", Pad(-b, w)) by {
        assert |"-" + Pad(-a, w)| == |"-" + Pad(-b, w)|;
      }
      PadInjective(-a, -b, w);
    } else {
      PadInjective(a, b, w);
    }
  }

  /** Two texts that end in parts of the same length agree exactly when both parts agree. */
  lemma SplitAtSuffix(a: string, x: string, b: string, y: string)
    requires a + x == b + y && |x| == |y|
    ensures a == b && x == y
  {
    assert (a + x)[..|a|] == a && (b + y)[..|b|] == b;
    assert (a + x)[|a|..] == x && (b + y)[|b|..] == y;
  }
}
