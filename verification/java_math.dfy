/** Integer helpers with the meaning Java gives them where Dafny differs. */
module JavaMath {

  /** Math.max on ints. */
  function Max(a: int, b: int): (m: int)
    ensures m >= a && m >= b
    ensures m == a || m == b
  {
    if a >= b then a else b
  }

  /** Math.abs on ints (no 32-bit overflow is modelled). */
  function Abs(a: int): (m: int)
    ensures m >= 0
    ensures m == a || m == -a
  {
    if a >= 0 then a else -a
  }

  /** `q` is the quotient of `a` by `b` truncated toward zero: the remainder
      `a - q * b` is smaller than `b` in size and never has the opposite sign of `a`. */
  predicate TruncatedQuotient(a: int, b: int, q: int)
    requires b > 0
  {
    if a >= 0 then 0 <= a - q * b < b else -b < a - q * b <= 0
  }

  /** Java's `a / b` for a positive divisor. Dafny's `/` is Euclidean and
      rounds negative dividends down, Java truncates them toward zero. */
  function JavaDiv(a: int, b: int): (q: int)
    requires b > 0
    ensures TruncatedQuotient(a, b, q)
    ensures a >= 0 ==> q >= 0
    ensures a <= 0 ==> q <= 0
  {
    if a >= 0 then a / b else -((-a) / b)
  }

  /** The truncated quotient is unique, so JavaDiv's contract pins its result. */
  lemma TruncatedQuotientUnique(a: int, b: int, q1: int, q2: int)
    requires b > 0
    requires TruncatedQuotient(a, b, q1) && TruncatedQuotient(a, b, q2)
    ensures q1 == q2
  {
    if q1 < q2 {
      MultipleAtLeastDivisor(q2 - q1, b);
    } else if q2 < q1 {
      MultipleAtLeastDivisor(q1 - q2, b);
    }
  }

  lemma MultipleAtLeastDivisor(d: int, b: int)
    requires d >= 1 && b > 0
    ensures d * b >= b
  {
    assert d * b == (d - 1) * b + b;
  }

  /** For an odd negative dividend the two divisions disagree by one. */
  lemma JavaDivOfOddNegative(a: int)
    requires a < 0 && a % 2 == 1
    ensures JavaDiv(a, 2) == a / 2 + 1
  {
    var q := JavaDiv(a, 2);
    var e := a / 2;
    assert a == 2 * e + 1;
    assert -2 < a - 2 * q <= 0;
  }
}
