/** Amounts as whole numbers of thousandths, and rounding a half away from zero. */
module Money {
  import opened Common

  /** `n / d` to the nearest whole number, halves away from zero. */
  function HalfUp(n: int, d: int): int
    requires d > 0
  {
    if n >= 0 then (2 * n + d) / (2 * d) else -((2 * -n + d) / (2 * d))
  }

  /** An amount in thousandths, rounded to whole cents and given in thousandths again. */
  function AtCents(mills: int): int {
    10 * HalfUp(mills, 10)
  }

  predicate WholeCents(mills: int) {
    mills % 10 == 0
  }

  /** Rounding is off by at most a half, and a half goes outwards. */
  lemma {:induction false} HalfUpNearest(n: int, d: int)
    requires d > 0
    ensures n >= 0 ==> -d < 2 * (n - d * HalfUp(n, d)) < d || 2 * (d * HalfUp(n, d) - n) == d
    ensures n < 0 ==> -d < 2 * (n - d * HalfUp(n, d)) < d || 2 * (n - d * HalfUp(n, d)) == d
  {
    var m := 2 * Abs(n) + d;
    var q := m / (2 * d);
    assert m == (2 * d) * q + m % (2 * d);
    assert (2 * d) * q == 2 * (d * q);
    assert d * -q == -(d * q);
  }

  lemma {:induction false} HalfUpUnique(n: int, d: int, q: int)
    requires d > 0 && n >= 0
    requires -d <= 2 * (n - d * q) < d
    ensures HalfUp(n, d) == q
  {
    var m := 2 * n + d;
    assert m == (2 * d) * q + (m - (2 * d) * q);
    var r := m - (2 * d) * q;
    assert (2 * d) * q == 2 * (d * q);
    assert 0 <= r < 2 * d;
    QuotientUnique(m, 2 * d, q, r);
  }

  lemma {:induction false} AtLeastOnce(d: int, k: int)
    requires d > 0 && k >= 1
    ensures d * k >= d
  {
  }

  lemma {:induction false} Distribute(d: int, a: int, b: int)
    ensures d * (a - b) == d * a - d * b
  {
  }

  lemma {:induction false} QuotientUnique(m: int, d: int, q: int, r: int)
    requires d > 0 && m == d * q + r && 0 <= r < d
    ensures m / d == q && m % d == r
  {
    var k, t := m / d, m % d;
    var dk, dq := d * k, d * q;
    assert m == dk + t && 0 <= t < d;
    Distribute(d, q, k);
    Distribute(d, k, q);
    if k < q {
      AtLeastOnce(d, q - k);
    } else if k > q {
      AtLeastOnce(d, k - q);
    }
  }

  lemma {:induction false} DivMonotone(a: int, b: int, d: int)
    requires d > 0 && a <= b
    ensures a / d <= b / d
  {
    var p, q := a / d, b / d;
    var dp, dq := d * p, d * q;
    assert a == dp + a % d && b == dq + b % d;
    Distribute(d, p, q);
    if p > q {
      AtLeastOnce(d, p - q);
    }
  }

  lemma {:induction false} HalfUpOdd(n: int, d: int)
    requires d > 0
    ensures HalfUp(-n, d) == -HalfUp(n, d)
  {
    if n == 0 {
      HalfUpWhole(0, d);
    }
  }

  lemma {:induction false} HalfUpWhole(k: int, d: int)
    requires d > 0
    ensures HalfUp(d * k, d) == k
  {
    if k >= 0 {
      assert d * k >= 0;
      HalfUpUnique(d * k, d, k);
    } else {
      assert d * -k == -(d * k) && d * -k >= d;
      HalfUpUnique(d * -k, d, -k);
    }
  }

  lemma {:induction false} HalfUpMonotone(m: int, n: int, d: int)
    requires d > 0 && m <= n
    ensures HalfUp(m, d) <= HalfUp(n, d)
  {
    if m >= 0 {
      DivMonotone(2 * m + d, 2 * n + d, 2 * d);
    } else if n < 0 {
      DivMonotone(2 * -n + d, 2 * -m + d, 2 * d);
    } else {
      DivMonotone(0, 2 * n + d, 2 * d);
      DivMonotone(0, 2 * -m + d, 2 * d);
    }
  }

  lemma {:induction false} WholeCentsStay(mills: int)
    requires WholeCents(mills)
    ensures AtCents(mills) == mills
  {
    HalfUpWhole(mills / 10, 10);
  }

  lemma {:induction false} AtCentsWhole(mills: int)
    ensures WholeCents(AtCents(mills)) && AtCents(-mills) == -AtCents(mills)
    ensures mills >= 0 ==> AtCents(mills) >= 0
  {
    HalfUpOdd(mills, 10);
  }

  lemma {:induction false} SumWholeCents<T>(s: seq<T>, f: T -> int)
    requires forall i :: 0 <= i < |s| ==> WholeCents(f(s[i]))
    ensures WholeCents(Sum(s, f))
  {
    if |s| > 0 {
      SumWholeCents(s[..|s| - 1], f);
    }
  }
}
