/** Decimal numbers, and splitting text where a class of characters ends. */
module Texts {
  import opened Results

  function Digit(n: nat): char
    requires n < 10
  {
    "0123456789"[n]
  }

  function Decimal(n: nat): (s: string)
    ensures s != "" && forall c | c in s :: IsDigit(c)
  {
    if n < 10 then [Digit(n)] else Decimal(n / 10) + [Digit(n % 10)]
  }

  predicate IsDigit(c: char) {
    '0' <= c <= '9'
  }

  function DigitOf(c: char): nat
    requires IsDigit(c)
  {
    c as int - '0' as int
  }

  /** The number a run of digits stands for. */
  function DecimalValue(s: string): nat
    requires forall c | c in s :: IsDigit(c)
  {
    if s == "" then 0 else DecimalValue(s[..|s| - 1]) * 10 + DigitOf(s[|s| - 1])
  }

  lemma {:induction false} DecimalRoundTrip(n: nat)
    ensures DecimalValue(Decimal(n)) == n
  {
    assert DigitOf(Digit(n % 10)) == n % 10;
    if n >= 10 {
      DecimalRoundTrip(n / 10);
      assert Decimal(n)[..|Decimal(n)| - 1] == Decimal(n / 10);
    } else {
      assert Decimal(n)[..0] == "";
    }
  }

  /**
   A text in a class of characters, followed by nothing or by a character outside the class, can be split in one way
   only.
   */
  lemma SplitUnique(p: char -> bool, a: string, x: string, b: string, y: string)
    requires (forall c | c in a :: p(c)) && (forall c | c in b :: p(c))
    requires (x == "" || !p(x[0])) && (y == "" || !p(y[0]))
    requires a + x == b + y
    ensures a == b && x == y
  {
    if |a| < |b| {
      GoesOnInClass(p, a, x, b, y);
    } else if |b| < |a| {
      GoesOnInClass(p, b, y, a, x);
    } else {
      assert a == (a + x)[..|a|] && b == (b + y)[..|a|];
      assert x == (a + x)[|a|..] && y == (b + y)[|a|..];
    }
  }

  lemma GoesOnInClass(p: char -> bool, a: string, x: string, b: string, y: string)
    requires (forall c | c in b :: p(c)) && a + x == b + y && |a| < |b|
    ensures x != "" && p(x[0])
  {
    assert |a + x| == |b + y|;
    assert (a + x)[|a|] == x[0] && (b + y)[|a|] == b[|a|] && b[|a|] in b;
  }

  /** The part before the first occurrence of a character and the part after it. */
  function SplitAt(s: string, mark: char): Option<(string, string)> {
    if s == "" then None
    else if s[0] == mark then Some(("", s[1..]))
    else
      match SplitAt(s[1..], mark)
      case None => None
      case Some((before, after)) => Some(([s[0]] + before, after))
  }

  lemma {:induction false} SplitAtFirst(a: string, mark: char, rest: string)
    requires mark !in a
    ensures SplitAt(a + [mark] + rest, mark) == Some((a, rest))
  {
    var s := a + [mark] + rest;
    if a == "" {
      assert s[0] == mark && s[1..] == rest;
    } else {
      assert s[0] == a[0] && s[1..] == a[1..] + [mark] + rest;
      SplitAtFirst(a[1..], mark, rest);
      assert a == [a[0]] + a[1..] && a[0] in a;
    }
  }
}
