/**
 * Swift's integer `/` and `%` truncate toward zero, whereas Dafny's are
 * Euclidean.  The two differ on negative dividends; the operations below are
 * Swift's, written out.
 */
module SwiftArith {

  /** Swift's `a / b` for `b > 0`. */
  function TruncDiv(a: int, b: int): (q: int)
    requires b > 0
    ensures a >= 0 ==> q == a / b
    ensures a < 0 ==> q == -((-a) / b)
  {
    if a >= 0 then a / b else -((-a) / b)
  }

  /** Swift's `a % b` for `b > 0`: it takes the sign of `a`. */
  function TruncRem(a: int, b: int): (r: int)
    requires b > 0
    ensures a == TruncDiv(a, b) * b + r
    ensures a >= 0 ==> 0 <= r < b
    ensures a < 0 ==> -b < r <= 0
  {
    a - TruncDiv(a, b) * b
  }

  /** On a non-negative dividend Swift's `%` agrees with Dafny's, and leaves a smaller dividend as it is. */
  lemma TruncRemOfNonNegative(a: int, b: int)
    requires a >= 0 && b > 0
    ensures TruncRem(a, b) == a % b
    ensures a < b ==> TruncRem(a, b) == a
  {
    assert (a / b) * b + a % b == a;
    if a < b {
      assert a / b == 0;
    }
  }
}
