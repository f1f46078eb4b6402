/**
 * Euclidean distance as the sources compute it, `Math.sqrt(dx * dx + dy * dy)`.
 * The square root is the platform's: it is a parameter of every member that
 * needs it, constrained to be a non-negative square root on non-negative reals.
 */
module Euclid {

  /** `sqrt` returns the non-negative square root of every non-negative real. */
  ghost predicate IsSqrt(sqrt: real -> real) {
    forall x: real {:trigger sqrt(x)} :: 0.0 <= x ==> 0.0 <= sqrt(x) && sqrt(x) * sqrt(x) == x
  }

  function SquaredNorm(dx: real, dy: real): (q: real)
    ensures q >= 0.0
  {
    dx * dx + dy * dy
  }

  /** The length of the vector (dx, dy). */
  function Norm(sqrt: real -> real, dx: real, dy: real): (d: real)
    requires IsSqrt(sqrt)
    ensures d >= 0.0 && d * d == SquaredNorm(dx, dy)
  {
    sqrt(SquaredNorm(dx, dy))
  }

  /** Comparing a length with a non-negative bound is comparing the squares. */
  lemma NormBelow(sqrt: real -> real, dx: real, dy: real, bound: real)
    requires IsSqrt(sqrt) && bound >= 0.0
    ensures Norm(sqrt, dx, dy) < bound <==> SquaredNorm(dx, dy) < bound * bound
  {
    var d := Norm(sqrt, dx, dy);
    var q := SquaredNorm(dx, dy);
    assert d * d == q;
    if d < bound {
      calc {
        q;
      ==
        d * d;
      <=
        d * bound;
      <
        bound * bound;
      }
    } else {
      calc {
        bound * bound;
      <=
        bound * d;
      <=
        d * d;
      ==
        q;
      }
    }
  }
}
