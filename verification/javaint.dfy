/** Java's integer `/` and `%` truncate toward zero, where Dafny's are Euclidean. */
module JavaInt {

  /** Java's `a / 2`: the quotient rounded toward zero. */
  function Half(a: int): (q: int)
    ensures a >= 0 ==> 2 * q <= a <= 2 * q + 1
    ensures a < 0 ==> 2 * q - 1 <= a <= 2 * q
  {
    if a >= 0 then a / 2 else -((-a) / 2)
  }

  /** `q * b`, named so that the quotient in `Rem`'s contract has a trigger. */
  function Mul(q: int, b: int): int {
    q * b
  }

  /** Java's `a % b` for a positive divisor: `a` minus a whole multiple of
      `b`, with the sign of the dividend. */
  function Rem(a: int, b: int): (r: int)
    requires b > 0
    ensures a >= 0 ==> 0 <= r < b
    ensures a < 0 ==> -b < r <= 0
    ensures exists q :: a == Mul(q, b) + r
  {
    if a >= 0 then
      assert a == Mul(a / b, b) + a % b;
      a % b
    else
      var m := -a;
      assert m == Mul(m / b, b) + m % b;
      assert a == Mul(-(m / b), b) + -(m % b);
      -(m % b)
  }

  /** `(c + 1 + n) % n`: the next index on a ring of `n` cells. */
  function Next(c: int, n: int): (r: int)
    requires 0 <= c < n
    ensures 0 <= r < n
    ensures r == if c == n - 1 then 0 else c + 1
  {
    ModWindow(c + 1 + n, n);
    Rem(c + 1 + n, n)
  }

  /** `(c - 1 + n) % n`: the previous index on a ring of `n` cells. */
  function Prev(c: int, n: int): (r: int)
    requires 0 <= c < n
    ensures 0 <= r < n
    ensures r == if c == 0 then n - 1 else c - 1
  {
    ModWindow(c - 1 + n, n);
    Rem(c - 1 + n, n)
  }

  /** `x % n` for `x` in the window `[0, 2n]`. */
  lemma ModWindow(x: int, n: int)
    requires n > 0 && 0 <= x <= 2 * n
    ensures x % n == if x < n then x else if x < 2 * n then x - n else 0
  {
    var q, r := x / n, x % n;
    assert x == q * n + r;
    QuotientBound(q, n, x - r);
  }

  /** A multiple `q * n` of a positive `n` in `(-n, 2n]` has `0 <= q <= 2`. */
  lemma QuotientBound(q: int, n: int, p: int)
    requires n > 0 && p == q * n && -n < p <= 2 * n
    ensures 0 <= q <= 2
  {
  }
}
