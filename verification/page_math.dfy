/**
 * Integer facts behind page arithmetic: ceiling division, an independent
 * page-counting definition, and the monotonicity of multiplication that the
 * pagination proofs lean on.
 */
module PageMath {

  /** `a * b <= c * b` whenever `a <= c` and `b` is non-negative. */
  lemma {:induction false} MulMonotone(a: int, c: int, b: nat)
    requires a <= c
    ensures a * b <= c * b
  {
    assert c * b - a * b == (c - a) * b;
  }

  /** Dividing a multiple of `b` by `b` is exact. */
  lemma {:induction false} MultipleDivides(k: int, b: nat)
    requires b > 0
    ensures (k * b) / b == k
    ensures (k * b) % b == 0
  {
    var q, r := (k * b) / b, (k * b) % b;
    assert (k - q) * b == r;
    if k - q >= 1 {
      MulMonotone(1, k - q, b);
    } else if k - q <= -1 {
      MulMonotone(k - q, -1, b);
    }
  }

  /** Holds of `q` exactly when `q` is the ceiling of `a / b`. */
  ghost predicate IsCeiling(a: nat, b: nat, q: int)
  {
    q >= 0 && q * b >= a && (q == 0 || (q - 1) * b < a)
  }

  /** The ceiling of `a / b` is unique. */
  lemma {:induction false} CeilingUnique(a: nat, b: nat, q1: int, q2: int)
    requires b > 0
    requires IsCeiling(a, b, q1) && IsCeiling(a, b, q2)
    ensures q1 == q2
  {
    if q1 < q2 {
      MulMonotone(q1, q2 - 1, b);
    } else if q2 < q1 {
      MulMonotone(q2, q1 - 1, b);
    }
  }

  /**
   * Number of pages needed for `a` items when pages are filled one after
   * the other with `b` items each: a reference definition of the page count
   * that does not divide.
   */
  function CountPages(a: nat, b: nat): (q: nat)
    requires b > 0
    ensures IsCeiling(a, b, q)
    ensures q == 0 <==> a == 0
    decreases a
  {
    if a == 0 then 0
    else if a <= b then 1
    else 1 + CountPages(a - b, b)
  }
}
