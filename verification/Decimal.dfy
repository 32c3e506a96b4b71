/** Decimal numerals: `String(n)` and `padStart(width, "0")`. */
module Decimal {
  import opened Sorting

  function DigitChar(d: nat): char
    requires d < 10
  {
    (d + '0' as int) as char
  }

  /** `String(n)`. */
  function Digits(n: nat): (s: string)
    ensures s != "" && (n > 0 ==> s[0] != '0')
  {
    if n < 10 then [DigitChar(n)] else Digits(n / 10) + [DigitChar(n % 10)]
  }

  function Zeros(k: nat): (s: string)
    ensures |s| == k && forall i | 0 <= i < k :: s[i] == '0'
  {
    seq(k, _ => '0')
  }

  function PadStart(s: string, width: nat): string {
    if |s| >= width then s else Zeros(width - |s|) + s
  }

  function Pow10(k: nat): (r: nat)
    ensures r >= 1
  {
    if k == 0 then 1 else 10 * Pow10(k - 1)
  }

  /** Exactly `k` digits. */
  function Fixed(n: nat, k: nat): (s: string)
    ensures |s| == k
  {
    if k == 0 then "" else Fixed(n / 10, k - 1) + [DigitChar(n % 10)]
  }

  lemma {:induction false} FixedZero(k: nat)
    ensures Fixed(0, k) == Zeros(k)
  {
    if k > 0 { FixedZero(k - 1); }
  }

  /** Below `10^k`, padding to `k` digits writes the number with exactly `k` digits. */
  lemma {:induction false} PadIsFixed(n: nat, k: nat)
    requires k >= 1 && n < Pow10(k)
    ensures |Digits(n)| <= k && PadStart(Digits(n), k) == Fixed(n, k)
  {
    if n < 10 {
      assert n / 10 == 0 && n % 10 == n;
      FixedZero(k - 1);
    } else {
      assert k >= 2 by { assert Pow10(1) == 10; }
      PadIsFixed(n / 10, k - 1);
    }
  }

  lemma {:induction false} LessSnoc(x: string, c: char, y: string, d: char)
    requires |x| == |y|
    ensures Less(x + [c], y + [d]) <==> Less(x, y) || (x == y && c < d)
  {
    if x == "" {
      assert x + [c] == [c] && y + [d] == [d];
      assert !Less([c][1..], [d][1..]);
    } else {
      assert (x + [c])[1..] == x[1..] + [c] && (y + [d])[1..] == y[1..] + [d];
      LessSnoc(x[1..], c, y[1..], d);
      assert x == [x[0]] + x[1..] && y == [y[0]] + y[1..];
    }
  }

  /** Among numerals of one width, string order is numeric order. */
  lemma {:induction false} FixedOrder(a: nat, b: nat, k: nat)
    requires a < Pow10(k) && b < Pow10(k)
    ensures Less(Fixed(a, k), Fixed(b, k)) <==> a < b
    ensures Fixed(a, k) == Fixed(b, k) <==> a == b
  {
    if k > 0 {
      FixedOrder(a / 10, b / 10, k - 1);
      LessSnoc(Fixed(a / 10, k - 1), DigitChar(a % 10), Fixed(b / 10, k - 1), DigitChar(b % 10));
      assert Fixed(a, k)[..k - 1] == Fixed(a / 10, k - 1) && Fixed(b, k)[..k - 1] == Fixed(b / 10, k - 1);
      assert Fixed(a, k)[k - 1] == DigitChar(a % 10) && Fixed(b, k)[k - 1] == DigitChar(b % 10);
    }
  }

  lemma {:induction false} PowAbove(n: nat)
    ensures n < Pow10(n + 1)
  {
    if n > 0 { PowAbove(n - 1); }
  }

  lemma {:induction false} PowGrows(i: nat, j: nat)
    requires i <= j
    ensures Pow10(i) <= Pow10(j)
    decreases j
  {
    if i < j { PowGrows(i, j - 1); }
  }

  /** Different numbers have different numerals. */
  lemma DigitsInjective(a: nat, b: nat)
    requires Digits(a) == Digits(b)
    ensures a == b
  {
    var k := if a <= b then b + 1 else a + 1;
    PowAbove(k - 1);
    PadIsFixed(a, k);
    PadIsFixed(b, k);
    FixedOrder(a, b, k);
  }

  lemma {:induction false} PowNumeral(k: nat)
    ensures |Digits(Pow10(k))| == k + 1 && Digits(Pow10(k))[0] == '1'
  {
    if k > 0 {
      assert Pow10(k) / 10 == Pow10(k - 1);
      PowNumeral(k - 1);
    }
  }

  lemma {:induction false} NinesNumeral(k: nat)
    requires k >= 1
    ensures |Digits(Pow10(k) - 1)| == k && Digits(Pow10(k) - 1)[0] == '9'
  {
    if k > 1 {
      assert (Pow10(k) - 1) / 10 == Pow10(k - 1) - 1;
      assert Pow10(k - 1) >= 10 by { PowGrows(1, k - 1); }
      NinesNumeral(k - 1);
    }
  }
}
