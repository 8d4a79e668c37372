/** Decimal notation of the counters that a response carries about itself. */
module Decimal {

  function Digit(n: nat): char
    requires n < 10
  {
    "0123456789"[n]
  }

  /** The text that a JSON writer produces for an unsigned integer. */
  function Text(n: nat): string {
    if n < 10 then [Digit(n)] else Text(n / 10) + [Digit(n % 10)]
  }

  /** What a decimal text means: its digits are characters from '0' on, the last one counts ones. */
  function Value(text: string): int {
    if text == "" then 0 else 10 * Value(text[..|text| - 1]) + (text[|text| - 1] as int - '0' as int)
  }

  /** Reading a decimal text back gives the number. */
  lemma {:induction false} TextRoundTrip(n: nat)
    ensures Value(Text(n)) == n
    ensures n > 0 ==> Text(n)[0] != '0'
    ensures forall i :: 0 <= i < |Text(n)| ==> '0' <= Text(n)[i] <= '9'
  {
    if n >= 10 {
      TextRoundTrip(n / 10);
      assert Text(n)[..|Text(n)| - 1] == Text(n / 10);
    } else {
      assert Text(n)[..|Text(n)| - 1] == "";
    }
  }

  function Width(n: nat): (w: nat)
    ensures 1 <= w
  {
    if n < 10 then 1 else 1 + Width(n / 10)
  }

  function Pow10(d: nat): (p: nat)
    ensures 1 <= p
  {
    if d == 0 then 1 else 10 * Pow10(d - 1)
  }

  lemma {:induction false} WidthIsTextLength(n: nat)
    ensures Width(n) == |Text(n)|
  {
    if n >= 10 {
      WidthIsTextLength(n / 10);
    }
  }

  lemma {:induction false} WidthMonotone(a: nat, b: nat)
    requires a <= b
    ensures Width(a) <= Width(b)
  {
    if a >= 10 {
      WidthMonotone(a / 10, b / 10);
    }
  }

  /** Two positive numbers less than forty apart differ by at most one digit. */
  lemma {:induction false} NearbyWidths(a: nat, b: nat)
    requires 1 <= a <= b <= a + 38
    ensures Width(a) <= Width(b) <= Width(a) + 1
  {
    WidthMonotone(a, b);
    if a >= 10 {
      NearbyWidths(a / 10, b / 10);
    } else {
      assert b / 10 < 10;
    }
  }

  /** `Width(n) <= d` says exactly that `n` is below the d-th power of ten. */
  lemma {:induction false} WidthByPowers(n: nat, d: nat)
    requires 1 <= d
    ensures Width(n) <= d <==> n < Pow10(d)
  {
    if d == 1 {
      assert Pow10(1) == 10 * Pow10(0);
    } else if n >= 10 {
      WidthByPowers(n / 10, d - 1);
    } else {
      assert Pow10(d) == 10 * Pow10(d - 1);
    }
  }

  lemma TwentyDigits()
    ensures Pow10(20) == 100000000000000000000
  {
    assert Pow10(4) == 10000 by { assert Pow10(2) == 100; }
    assert Pow10(8) == 100000000 by { assert Pow10(6) == 1000000; }
    assert Pow10(12) == 1000000000000 by { assert Pow10(10) == 10000000000; }
    assert Pow10(16) == 10000000000000000 by { assert Pow10(14) == 100000000000000; }
    assert Pow10(18) == 1000000000000000000;
  }

  /** An unsigned 64-bit value has at most twenty digits. */
  lemma WidthOfUsize(n: nat)
    requires n < 0x1_0000_0000_0000_0000
    ensures Width(n) <= 20
  {
    WidthByPowers(n, 20);
    TwentyDigits();
  }
}
