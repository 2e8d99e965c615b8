/** Values and primitives the hydrogen-orbital evaluators are built from.

    The combinatorial, complex and vector helpers live in modules that are
    not part of this model, and the transcendental `Math` functions have no
    exact counterpart over `real`; all of them are fields of `Helpers`, a
    record of total functions that every evaluator receives as a parameter.
    Nothing is assumed about their values.  Integer powers of -1 and 2,
    which the code computes with `Math.pow` on integer exponents, are exact
    and are defined here. */
module Primitives {

  /** A complex value as the pair [real, imaginary]. */
  datatype Complex = Complex(re: real, im: real)

  /** A position in space, the source's three-element `vector`. */
  datatype Vector3 = Vector3(x0: real, x1: real, x2: real)

  /** The helpers whose bodies are outside the model. */
  datatype Helpers = Helpers(
    combination: (real, int) -> real,
    factorial: int -> real,
    permutation: (int, int) -> real,
    product: (int, int) -> real,
    complexExp: Complex -> Complex,
    complexMult: (Complex, Complex) -> Complex,
    complexScale: (Complex, real) -> Complex,
    complexConj: Complex -> Complex,
    inclination: Vector3 -> real,
    azimuth: Vector3 -> real,
    sqrt: real -> real,
    cos: real -> real,
    exp: real -> real,
    pow: (real, real) -> real,  // Math.pow other than (-1)^m and 2^l
    pi: real,                   // Math.PI
    divideByZero: real -> real  // the IEEE value of a / 0 (an infinity or NaN)
  )

  /** JavaScript division: exact when the divisor is not zero. */
  function Divide(h: Helpers, a: real, b: real): real
  {
    if b == 0.0 then h.divideByZero(a) else a / b
  }

  function Abs(m: int): (a: nat)
    ensures a == m || a == -m
  {
    if m < 0 then -m else m
  }

  /** b^e for a natural exponent. */
  function Power(b: real, e: nat): real
  {
    if e == 0 then 1.0 else b * Power(b, e - 1)
  }

  /** `Math.pow(-1, m)` for an integer m: 1 when m is even, -1 when odd. */
  function MinusOnePow(m: int): (s: real)
    ensures s == 1.0 || s == -1.0
  {
    if m % 2 == 0 then 1.0 else -1.0
  }

  /** For a natural m the parity test is the power (-1)^m itself. */
  lemma {:induction false} MinusOnePowIsPower(m: int)
    ensures m >= 0 ==> MinusOnePow(m) == Power(-1.0, m)
  {
    if m > 0 {
      MinusOnePowIsPower(m - 1);
      assert (m - 1) % 2 != m % 2;
    }
  }

  /** `Math.pow(-1, m) * Math.pow(-1, -m) == 1`: the two sign factors the
      evaluators build for a negative order cancel. */
  lemma MinusOnePowCancel(m: int)
    ensures MinusOnePow(m) * MinusOnePow(-m) == 1.0
  {
    assert (-m) % 2 == m % 2;
  }
}
