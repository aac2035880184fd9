/**
  Java's integer division and remainder, which truncate toward zero (Dafny's
  `/` and `%` are Euclidean and differ from them on negative operands).
 */
module JavaInts {

  function Abs(n: int): nat
  {
    if n < 0 then -n else n
  }

  /** `a / b` on Java ints (without overflow): the quotient rounded toward zero. */
  function JavaDiv(a: int, b: int): (q: int)
    requires b != 0
    ensures (a >= 0) == (b > 0) ==> q >= 0
    ensures (a >= 0) != (b > 0) ==> q <= 0
  {
    var q := Abs(a) / Abs(b);
    if (a >= 0) == (b > 0) then q else -q
  }

  /** `a % b` on Java ints: what the truncated quotient leaves over. */
  function JavaRem(a: int, b: int): int
    requires b != 0
  {
    a - JavaDiv(a, b) * b
  }

  /** The quotient is the largest whole number of |b| that fits into |a|, with the sign of a / b. */
  lemma JavaDivTruncates(a: int, b: int)
    requires b != 0
    ensures var q := JavaDiv(a, b);
      Abs(q) * Abs(b) <= Abs(a) < (Abs(q) + 1) * Abs(b)
  {
    var n, d := Abs(a), Abs(b);
    var q := n / d;
    assert n == q * d + n % d && 0 <= n % d < d;
    assert (q + 1) * d == q * d + d;
    assert Abs(JavaDiv(a, b)) == q;
  }

  /** For a positive divisor the remainder takes the sign of the dividend and is smaller than the divisor. */
  lemma JavaRemSign(a: int, b: int)
    requires b > 0
    ensures JavaDiv(a, b) * b + JavaRem(a, b) == a
    ensures Abs(JavaRem(a, b)) < b
    ensures a >= 0 ==> JavaRem(a, b) >= 0
    ensures a <= 0 ==> JavaRem(a, b) <= 0
  {
    var n := Abs(a);
    var q := n / b;
    assert n == q * b + n % b && 0 <= n % b < b;
    if a >= 0 {
      assert JavaDiv(a, b) == q;
      assert JavaRem(a, b) == n % b;
    } else {
      assert JavaDiv(a, b) == -q;
      assert JavaDiv(a, b) * b == -(q * b);
      assert JavaRem(a, b) == -(n % b);
    }
  }
}
