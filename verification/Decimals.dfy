/**
 Integers printed in decimal, as Python's format strings and SQL's `||` print them, and the two
 facts that make keys built from them readable again: printing is undone by `Value`, and a mark
 that a suffix cannot contain splits a string in one way only.
 */
module Decimals {
  const DIGITS: string := "0123456789"

  predicate IsDigit(c: char) {
    '0' <= c <= '9'
  }

  predicate AllDigits(s: string) {
    forall i :: 0 <= i < |s| ==> IsDigit(s[i])
  }

  function Decimal(n: nat): (s: string)
    ensures s != [] && AllDigits(s)
  {
    if n < 10 then [DIGITS[n]] else Decimal(n / 10) + [DIGITS[n % 10]]
  }

  function Value(s: string): nat
    requires AllDigits(s)
  {
    if s == [] then 0
    else Value(s[..|s| - 1]) * 10 + (s[|s| - 1] as int - '0' as int)
  }

  lemma {:induction false} ValueOfDecimal(n: nat)
    ensures Value(Decimal(n)) == n
  {
    var s := Decimal(n);
    if n >= 10 {
      ValueOfDecimal(n / 10);
      assert s[..|s| - 1] == Decimal(n / 10);
    } else {
      assert s[..0] == [];
    }
  }

  /** One digit prints as itself, and ten times as much and a digit as the one before the other. */
  lemma DecimalReads(n: nat, d: nat)
    requires d < 10
    ensures Decimal(d) == ["0123456789"[d]]
    ensures n > 0 ==> Decimal(10 * n + d) == Decimal(n) + ["0123456789"[d]]
  {
  }

  lemma DecimalInjective(m: nat, n: nat)
    requires Decimal(m) == Decimal(n)
    ensures m == n
  {
    ValueOfDecimal(m);
    ValueOfDecimal(n);
  }

  lemma MarkInsideLongerTail(a: string, b: string, c: char, x: string, y: string)
    requires a + [c] + x == b + [c] + y && |x| < |y|
    ensures c in y
  {
    assert (a + [c] + x)[|a|] == c;
    assert (b + [c] + y)[|a|] == y[|a| - |b| - 1];
  }

  /** The last occurrence of `c` splits a string in one way. */
  lemma SplitAtLast(a: string, b: string, c: char, x: string, y: string)
    requires c !in x && c !in y && a + [c] + x == b + [c] + y
    ensures a == b && x == y
  {
    if |x| < |y| {
      MarkInsideLongerTail(a, b, c, x, y);
    } else if |y| < |x| {
      MarkInsideLongerTail(b, a, c, y, x);
    }
    var s, t := a + [c] + x, b + [c] + y;
    assert s[..|a|] == a && t[..|b|] == b;
    assert s[|a| + 1..] == x && t[|b| + 1..] == y;
  }
}
