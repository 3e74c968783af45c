/**
 * The floating-point library calls the core relies on but that have no closed form
 * over the reals: the power operator `**` and the natural exponential.  They are kept
 * abstract: a model is parameterised by an `Ops` value, and `Valid` states the only
 * facts the core needs about them.
 */
module Transcendental {

  /** `pow(x, y)` stands for `x ** y`, `exp(x)` for the exponential of `x`. */
  datatype Ops = Ops(pow: (real, real) -> real, exp: real -> real)

  const OneThird: real := 1.0 / 3.0

  /** `x ** (1/3)`, the real cube root as the source computes it. */
  function Cbrt(ops: Ops, x: real): real
  {
    ops.pow(x, OneThird)
  }

  /**
   * What every use in the core assumes of the library: a positive base raised to any
   * exponent is positive, an exponential is positive, and `x ** (1/3)` is the
   * non-negative cube root of a non-negative `x`.
   */
  ghost predicate Valid(ops: Ops)
  {
    && (forall x, y :: x > 0.0 ==> ops.pow(x, y) > 0.0)
    && (forall x :: ops.exp(x) > 0.0)
    && (forall x :: x >= 0.0 ==> Cbrt(ops, x) >= 0.0 && Cbrt(ops, x) * Cbrt(ops, x) * Cbrt(ops, x) == x)
  }

  /** Cubing is strictly increasing on the non-negative reals. */
  lemma CubeStrictlyIncreasing(a: real, b: real)
    requires 0.0 <= a < b
    ensures a * a * a < b * b * b
  {
    var aa, ab, bb := a * a, a * b, b * b;
    assert aa <= ab < bb;
    var aaa, aab, bbb := aa * a, aa * b, bb * b;
    assert aaa <= aab < bbb;
  }

  /** A non-negative real has only one non-negative cube root. */
  lemma CubeInjective(a: real, b: real)
    requires a >= 0.0 && b >= 0.0
    requires a * a * a == b * b * b
    ensures a == b
  {
    if a < b {
      CubeStrictlyIncreasing(a, b);
    } else if b < a {
      CubeStrictlyIncreasing(b, a);
    }
  }

  /** Under `Valid`, the cube root of a cube is the number itself. */
  lemma CbrtOfCube(ops: Ops, r: real)
    requires Valid(ops) && r >= 0.0
    ensures Cbrt(ops, r * r * r) == r
  {
    var c := Cbrt(ops, r * r * r);
    assert r * r * r >= 0.0;
    assert c >= 0.0 && c * c * c == r * r * r;
    CubeInjective(c, r);
  }

  /** Under `Valid`, the cube root of zero is zero and that of a positive number is positive. */
  lemma CbrtSign(ops: Ops, x: real)
    requires Valid(ops) && x >= 0.0
    ensures Cbrt(ops, x) >= 0.0
    ensures Cbrt(ops, x) == 0.0 <==> x == 0.0
  {
    var c := Cbrt(ops, x);
    assert c * c * c == x;
    if c > 0.0 {
      assert c * c > 0.0;
      assert c * c * c > 0.0;
    }
  }
}
