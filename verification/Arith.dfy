/** The few facts about products, quotients and remainders that the proofs lean on. */
module Arith {

  function Lesser(a: nat, b: nat): nat {
    if a <= b then a else b
  }

  lemma MulAtLeast(a: int, n: nat)
    requires a >= 1
    ensures a * n >= n
  {
    assert a * n == (a - 1) * n + n;
  }

  lemma DivModUnique(c: nat, n: nat, r: nat)
    requires r < n
    ensures (c * n + r) / n == c && (c * n + r) % n == r
  {
    var x := c * n + r;
    var q, m := x / n, x % n;
    assert x == q * n + m;
    assert (q - c) * n == q * n - c * n;
    assert (c - q) * n == c * n - q * n;
    if q > c {
      MulAtLeast(q - c, n);
    } else if q < c {
      MulAtLeast(c - q, n);
    }
  }

  lemma MultipleOf(p: int, n: nat)
    requires n > 0
    ensures (p * n) % n == 0 && (n * p) % n == 0
  {
    var x := p * n;
    var q, m := x / n, x % n;
    assert x == q * n + m;
    assert (q - p) * n == q * n - p * n;
    assert (p - q) * n == p * n - q * n;
    if q > p {
      MulAtLeast(q - p, n);
    } else if q < p {
      MulAtLeast(p - q, n);
    }
  }

  lemma MultipleSum(a: int, b: int, n: nat)
    requires n > 0 && a % n == 0 && b % n == 0
    ensures (a + b) % n == 0 && (a - b) % n == 0
  {
    var p, q := a / n, b / n;
    assert a + b == (p + q) * n && a - b == (p - q) * n;
    MultipleOf(p + q, n);
    MultipleOf(p - q, n);
  }

  /** Two multiples of n that differ, differ by at least n. */
  lemma MultipleGap(a: int, b: int, n: nat)
    requires n > 0 && a % n == 0 && b % n == 0 && a < b
    ensures a + n <= b
  {
    MultipleSum(b, a, n);
    var d := b - a;
    assert d == (d / n) * n;
    MulAtLeast(d / n, n);
  }

  lemma MultipleOfMultiple(c: nat, m: nat, n: nat)
    requires n > 0 && m % n == 0
    ensures (c * m) % n == 0
  {
    assert c * m == c * ((m / n) * n) == (c * (m / n)) * n;
    MultipleOf(c * (m / n), n);
  }

  lemma NextDivMod(s: nat, n: nat, c: nat, r: nat)
    requires r < n && s == c * n + r
    ensures s / n == c && s % n == r
    ensures r + 1 < n ==> (s + 1) / n == c && (s + 1) % n == r + 1
    ensures r + 1 == n ==> (s + 1) / n == c + 1 && (s + 1) % n == 0
  {
    DivModUnique(c, n, r);
    if r + 1 < n {
      DivModUnique(c, n, r + 1);
    } else {
      assert (c + 1) * n + 0 == c * n + n;
      DivModUnique(c + 1, n, 0);
    }
  }

  lemma MulSign(a: nat, b: nat)
    ensures a * b >= 0
  {
  }

  lemma QuotientAtLeast(x: nat, n: nat, m: nat)
    requires n > 0
    ensures m * n <= x <==> m <= x / n
  {
    var q := x / n;
    assert x == q * n + x % n;
    if m <= q {
      MulSign(q - m, n);
      assert (q - m) * n == q * n - m * n;
    } else {
      MulAtLeast(m - q, n);
      assert (m - q) * n == m * n - q * n;
    }
  }

  lemma MulDistinct(a: nat, b: nat, n: nat)
    requires n > 0 && a != b
    ensures n * a != n * b
  {
    assert n * (a - b) == n * a - n * b;
    if a > b {
      MulAtLeast(a - b, n);
    } else {
      MulAtLeast(b - a, n);
    }
  }
}
