/** The evaluators of hydrogen_cloud/psi.ts: the generalized Laguerre
    polynomial, the associated Legendre function, the spherical harmonic and
    the orbital wavefunction, over exact reals and abstract helpers. */
module Psi {
  import opened Primitives
  import opened Polynomial

  // The physical constants psi_orbital declares locally.
  const RadiusReduced: real := 1.0
  const MassReduced: real := 9.109e-31
  const HBar: real := 1.054e-34
  const Z: real := 1.0

  // ---------------------------------------------------------------- Laguerre

  /** The number of terms of L_n^k: i runs over 0..n, none when n < 0. */
  function LaguerreTermCount(n: int): nat
  {
    if n < 0 then 0 else n + 1
  }

  /** The coefficient of (-x)^(n-i): combination(n+k, i) divided by the
      factorial of the i-th argument `laguerre` passes to factorial (n-i). */
  function LaguerreCoefficient(h: Helpers, n: int, k: int, i: nat): real
    requires i < LaguerreTermCount(n)
  {
    Divide(h, h.combination((n + k) as real, i), h.factorial(FactorialCalls(n)[i]))
  }

  function LaguerreCoefficients(h: Helpers, n: int, k: int): (cs: seq<real>)
    ensures |cs| == LaguerreTermCount(n)
    ensures forall i :: 0 <= i < |cs| ==> cs[i] == LaguerreCoefficient(h, n, k, i)
  {
    seq(LaguerreTermCount(n), i requires 0 <= i < LaguerreTermCount(n) => LaguerreCoefficient(h, n, k, i))
  }

  /** Σ_{i=0..n} combination(n+k, i) / factorial(n-i) · (-x)^(n-i). */
  function LaguerreSum(h: Helpers, n: int, k: int, x: real): real
  {
    PolySum(LaguerreCoefficients(h, n, k), -x)
  }

  /** With textbook factorials and binomials at the points used, laguerre
      at degree 2 is x²/2 - (k+2)·x + (k+2)(k+1)/2, the textbook L_2^k. */
  lemma LaguerreDegreeTwo(h: Helpers, k: int, x: real)
    requires h.factorial(0) == 1.0 && h.factorial(1) == 1.0 && h.factorial(2) == 2.0
    requires h.combination((2 + k) as real, 0) == 1.0
    requires h.combination((2 + k) as real, 1) == (2 + k) as real
    requires h.combination((2 + k) as real, 2) == ((2 + k) * (1 + k)) as real / 2.0
    ensures LaguerreSum(h, 2, k, x) == x * x / 2.0 - ((2 + k) as real) * x + ((2 + k) * (1 + k)) as real / 2.0
  {
    var cs := LaguerreCoefficients(h, 2, k);
    assert cs[0] == LaguerreCoefficient(h, 2, k, 0) == 0.5;
    assert cs[1] == LaguerreCoefficient(h, 2, k, 1) == (2 + k) as real;
    assert cs[2] == LaguerreCoefficient(h, 2, k, 2) == ((2 + k) * (1 + k)) as real / 2.0;
    var c0, c1, c2 := cs[0], cs[1], cs[2];
    assert cs[1..] == [c1, c2] && cs[1..][1..] == [c2] && cs[1..][1..][1..] == [];
    assert PolySum([c2], -x) == c2;
    assert PolySum([c1, c2], -x) == c1 * -x + c2 by {
      assert Power(-x, 1) == -x;
    }
    assert Power(-x, 2) == x * x by {
      assert Power(-x, 1) == -x;
    }
    assert PolySum(cs, -x) == c0 * (x * x) + (c1 * -x + c2);
  }

  /** The arguments `laguerre` passes to `factorial`, in call order:
      n, n-1, …, 0, each within [0, n]; none when n < 0. */
  function FactorialCalls(n: int): (calls: seq<int>)
    ensures |calls| == LaguerreTermCount(n)
    ensures forall j :: 0 <= j < |calls| ==> 0 <= calls[j] <= n
  {
    seq(LaguerreTermCount(n), j => n - j)
  }

  lemma FactorialCallsPrefix(n: int, i: nat)
    requires i <= n
    ensures FactorialCalls(n)[..i + 1] == FactorialCalls(n)[..i] + [n - i]
  {
    var calls := FactorialCalls(n);
    assert calls[..i + 1] == calls[..i] + [calls[i]];
  }

  lemma LaguerreSeriesStep(h: Helpers, n: int, k: int, x: real, i: nat, y: real)
    requires i <= n
    requires y == Horner(LaguerreCoefficients(h, n, k)[..i], -x)
    ensures y * -x + LaguerreCoefficient(h, n, k, i) == Horner(LaguerreCoefficients(h, n, k)[..i + 1], -x)
  {
    HornerPrefixStep(LaguerreCoefficients(h, n, k), i, -x);
  }

  /** `laguerre(n, k, x)`: the Horner loop equals the closed-form sum, and the
      arguments it passes to factorial are n, n-1, …, 0 in that order. */
  method Laguerre(h: Helpers, n: int, k: int, x: real) returns (y: real, ghost factorialArgs: seq<int>)
    ensures y == LaguerreSum(h, n, k, x)
    ensures n < 0 ==> y == 0.0
    ensures factorialArgs == FactorialCalls(n)
  {
    ghost var cs := LaguerreCoefficients(h, n, k);
    ghost var calls := FactorialCalls(n);
    y := 0.0;
    factorialArgs := [];
    var i := 0;
    while i <= n
      invariant 0 <= i <= |cs|
      invariant y == Horner(cs[..i], -x)
      invariant factorialArgs == calls[..i]
    {
      LaguerreSeriesStep(h, n, k, x, i, y);
      FactorialCallsPrefix(n, i);
      y := y * -x;
      y := y + LaguerreCoefficient(h, n, k, i);
      factorialArgs := factorialArgs + [n - i];
      i := i + 1;
    }
    assert cs[..i] == cs;
    HornerIsPolySum(cs, -x);
    assert calls[..i] == calls;
  }

  // ---------------------------------------------------------------- Legendre

  /** For 0 <= m <= l, the coefficient of x^(l-m-i), i = 0..l-m:
      combination(l, l-i) · combination((2l-i-1)/2, l) times permutation at
      the i-th argument pair `legendre` passes to it, (l-i, m). */
  function LegendreCoefficient(h: Helpers, m: nat, l: nat, i: nat): real
    requires m <= l && i <= l - m
  {
    var call := PermutationCalls(m, l)[i];
    h.combination(l as real, l - i) * h.combination(((2 * l - i - 1) as real) / 2.0, l) * h.permutation(call.0, call.1)
  }

  function LegendreCoefficients(h: Helpers, m: nat, l: nat): (cs: seq<real>)
    requires m <= l
    ensures |cs| == l - m + 1
    ensures forall i :: 0 <= i < |cs| ==> cs[i] == LegendreCoefficient(h, m, l, i)
  {
    seq(l - m + 1, i requires 0 <= i <= l - m => LegendreCoefficient(h, m, l, i))
  }

  /** The constant factor once the order is made non-negative: for m < 0 the
      two signs cancel and product(l-m+1, l+m)·2^l remains; otherwise
      (-1)^m·2^l. */
  function LegendreFactor(h: Helpers, m: int, l: nat): real
  {
    if m < 0 then h.product(l - m + 1, l + m) * Power(2.0, l) else MinusOnePow(m) * Power(2.0, l)
  }

  /** The factor `legendre` accumulates: for m < 0, Math.pow(-1, m) and then,
      after m is negated, Math.pow(-1, -m), which cancel; for m >= 0 the
      single sign (-1)^m. */
  lemma {:induction false} LegendreFactorSigns(h: Helpers, m: int, l: nat)
    ensures m < 0 ==>
      1.0 * (MinusOnePow(m) * h.product(l - m + 1, l + m)) * (MinusOnePow(-m) * Power(2.0, l)) == LegendreFactor(h, m, l)
    ensures m >= 0 ==> 1.0 * (MinusOnePow(m) * Power(2.0, l)) == LegendreFactor(h, m, l)
  {
    if m < 0 {
      var s, t, p, q := MinusOnePow(m), MinusOnePow(-m), h.product(l - m + 1, l + m), Power(2.0, l);
      MinusOnePowCancel(m);
      assert 1.0 * (s * p) * (t * q) == (s * t) * (p * q);
    }
  }

  /** P_l^m(x) as the code computes it: 0 when |m| > l, so in particular for
      every l < 0. */
  function LegendreValue(h: Helpers, m: int, l: int, x: real): real
  {
    if Abs(m) > l then 0.0
    else PolySum(LegendreCoefficients(h, Abs(m), l), x) * LegendreFactor(h, m, l) * h.pow(1.0 - x * x, (Abs(m) as real) / 2.0)
  }

  /** The arguments `legendre` passes to `permutation`, in call order, for
      0 <= m <= l: (l - j, m) for j = 0..l-m, each with l - j >= m >= 0. */
  function PermutationCalls(m: nat, l: nat): (calls: seq<(int, int)>)
    requires m <= l
    ensures |calls| == l - m + 1 >= 1
    ensures forall j :: 0 <= j < |calls| ==> calls[j].0 >= calls[j].1 == m >= 0
  {
    seq(l - m + 1, j => (l - j, m))
  }

  lemma PermutationCallsPrefix(m: nat, l: nat, i: nat)
    requires m <= l && i <= l - m
    ensures PermutationCalls(m, l)[..i + 1] == PermutationCalls(m, l)[..i] + [(l - i, m)]
  {
    var calls := PermutationCalls(m, l);
    assert calls[..i + 1] == calls[..i] + [calls[i]];
  }

  lemma LegendreSeriesStep(h: Helpers, m: nat, l: nat, x: real, i: nat, y: real)
    requires m <= l && i <= l - m
    requires y == Horner(LegendreCoefficients(h, m, l)[..i], x)
    ensures y * x + LegendreCoefficient(h, m, l, i) == Horner(LegendreCoefficients(h, m, l)[..i + 1], x)
  {
    HornerPrefixStep(LegendreCoefficients(h, m, l), i, x);
  }

  /** The accumulation loop of `legendre`, over i = 0..l-m once m has been
      made non-negative: the Horner form equals the closed-form sum, and the
      permutation calls receive (l-i, m), l-i >= m >= 0, at least once. */
  method LegendreSeries(h: Helpers, m: nat, l: nat, x: real) returns (y: real, ghost permutationArgs: seq<(int, int)>)
    requires m <= l
    ensures y == PolySum(LegendreCoefficients(h, m, l), x)
    ensures permutationArgs == PermutationCalls(m, l)
  {
    ghost var cs := LegendreCoefficients(h, m, l);
    ghost var calls := PermutationCalls(m, l);
    y := 0.0;
    permutationArgs := [];
    var i := 0;
    while i <= l - m
      invariant 0 <= i <= |cs|
      invariant y == Horner(cs[..i], x)
      invariant |permutationArgs| == i
      invariant permutationArgs == calls[..i]
    {
      LegendreSeriesStep(h, m, l, x, i, y);
      PermutationCallsPrefix(m, l, i);
      y := y * x;
      y := y + LegendreCoefficient(h, m, l, i);
      permutationArgs := permutationArgs + [(l - i, m)];
      i := i + 1;
    }
    assert cs[..i] == cs;
    HornerIsPolySum(cs, x);
    assert calls[..i] == calls;
  }

  /** The final scaling of `legendre`, once the series and the factor are known. */
  lemma LegendreAssemble(h: Helpers, m: int, l: int, x: real, y: real, factor: real, w: real)
    requires Abs(m) <= l
    requires y == PolySum(LegendreCoefficients(h, Abs(m), l), x) && factor == LegendreFactor(h, m, l)
    requires w == h.pow(1.0 - x * x, (Abs(m) as real) / 2.0)
    ensures y * factor * w == LegendreValue(h, m, l, x)
  {
  }

  /** The order handling of `legendre`: a negative order contributes
      Math.pow(-1, m)·product(l-m+1, l+m) and is negated; then the factor
      takes Math.pow(-1, m)·2^l.  The order passed on is |m|. */
  method LegendreOrderFactor(h: Helpers, m: int, l: nat) returns (factor: real, order: nat)
    ensures order == Abs(m)
    ensures factor == LegendreFactor(h, m, l)
  {
    var m' := m;
    factor := 1.0;
    if m' < 0 {
      factor := factor * (MinusOnePow(m') * h.product(l - m' + 1, l + m'));
      m' := -m';
    }
    factor := factor * (MinusOnePow(m') * Power(2.0, l));
    LegendreFactorSigns(h, m, l);
    order := m';
  }

  /** `legendre(m, l, x)`.  Besides its value: every l < 0 takes the early
      exit, so the reflection `l = -l - 1` never changes l, and the series
      loop sees the order |m|. */
  method Legendre(h: Helpers, m: int, l: int, x: real) returns (r: real, ghost permutationArgs: seq<(int, int)>)
    ensures r == LegendreValue(h, m, l, x)
    ensures Abs(m) > l ==> r == 0.0 && permutationArgs == []
    ensures l < 0 ==> r == 0.0
    ensures Abs(m) <= l ==> permutationArgs == PermutationCalls(Abs(m), l)
  {
    if Abs(m) > l {
      return 0.0, [];
    }
    var l' := l;
    if l' < 0 {
      l' := -l' - 1;
    }
    assert l' == l;
    var factor, m' := LegendreOrderFactor(h, m, l');
    var y;
    y, permutationArgs := LegendreSeries(h, m', l', x);
    var w := h.pow(1.0 - x * x, (m' as real) / 2.0);
    LegendreAssemble(h, m, l, x, y, factor, w);
    r := y * factor * w;
  }

  /** With the textbook values of the helpers at the points involved,
      legendre(0, 0, x) is the constant 1. */
  lemma LegendreDegreeZero(h: Helpers, x: real)
    requires h.combination(0.0, 0) == 1.0 && h.combination(-0.5, 0) == 1.0
    requires h.permutation(0, 0) == 1.0 && h.pow(1.0 - x * x, 0.0) == 1.0
    ensures LegendreValue(h, 0, 0, x) == 1.0
  {
    var cs := LegendreCoefficients(h, 0, 0);
    assert cs[0] == LegendreCoefficient(h, 0, 0, 0) == 1.0;
    assert PolySum(cs, x) == 1.0 by {
      assert cs[1..] == [];
      assert Power(x, 0) == 1.0;
    }
    assert LegendreFactor(h, 0, 0) == 1.0;
    assert (Abs(0) as real) / 2.0 == 0.0;
  }

  lemma LegendreDegreeOneCoefficients(h: Helpers)
    requires h.combination(1.0, 1) == 1.0 && h.combination(0.5, 1) == 0.5 && h.permutation(1, 0) == 1.0
    requires h.combination(0.0, 1) == 0.0
    ensures LegendreCoefficients(h, 0, 1) == [0.5, 0.0]
  {
    var cs := LegendreCoefficients(h, 0, 1);
    assert cs[0] == LegendreCoefficient(h, 0, 1, 0) == 0.5;
    assert cs[1] == LegendreCoefficient(h, 0, 1, 1) == 0.0;
  }

  /** With the textbook values of the helpers at the points involved
      (including the half-integer combination(1/2, 1) = 1/2),
      legendre(0, 1, x) is x. */
  lemma LegendreDegreeOne(h: Helpers, x: real)
    requires h.combination(1.0, 1) == 1.0 && h.combination(0.5, 1) == 0.5 && h.permutation(1, 0) == 1.0
    requires h.combination(0.0, 1) == 0.0 && h.pow(1.0 - x * x, 0.0) == 1.0
    ensures LegendreValue(h, 0, 1, x) == x
  {
    LegendreDegreeOneCoefficients(h);
    var cs := LegendreCoefficients(h, 0, 1);
    assert PolySum(cs, x) == 0.5 * x by {
      assert cs[1..] == [0.0] && cs[1..][1..] == [];
      assert PolySum([0.0], x) == 0.0;
      assert Power(x, 1) == x;
    }
    assert LegendreFactor(h, 0, 1) == 2.0 by {
      assert Power(2.0, 1) == 2.0;
    }
    assert (Abs(0) as real) / 2.0 == 0.0;
  }

  // ------------------------------------------------------ Spherical harmonic

  /** The sign in the normalization after the two (-1)^m factors for a
      negative order cancel. */
  function SphHarmSign(m: int): real
  {
    if m < 0 then 1.0 else MinusOnePow(m)
  }

  /** sqrt((2l+1) / (4π·product(l-a+1, l+a))) for the order a = |m|. */
  function SphHarmNorm(h: Helpers, a: nat, l: int): real
  {
    h.sqrt(Divide(h, 2.0 * (l as real) + 1.0, 4.0 * h.pi * h.product(l - a + 1, l + a)))
  }

  /** The unconjugated value: the phase e^(iφa) = complex_exp([0, φ·a])
      scaled by factor · c, where c is P_l^a(cos θ). */
  function SphHarmBase(h: Helpers, factor: real, a: nat, phi: real, c: real): Complex
  {
    h.complexScale(h.complexExp(Complex(0.0, phi * (a as real))), factor * c)
  }

  lemma SphHarmBaseUnfold(h: Helpers, factor: real, a: nat, phi: real, c: real)
    ensures SphHarmBase(h, factor, a, phi, c) == h.complexScale(h.complexExp(Complex(0.0, phi * (a as real))), factor * c)
  {
  }

  /** The factor at order a = |m|: the surviving sign times the normalization. */
  function SphHarmFactor(h: Helpers, m: int, l: int): real
  {
    SphHarmSign(m) * SphHarmNorm(h, Abs(m), l)
  }

  /** Y_l^m(θ, φ) as the code computes it: everything is evaluated at |m|, and
      the result is conjugated exactly when m < 0. */
  function SphHarmValue(h: Helpers, m: int, l: int, theta: real, phi: real): Complex
  {
    var base := SphHarmBase(h, SphHarmFactor(h, m, l), Abs(m), phi, LegendreValue(h, Abs(m), l, h.cos(theta)));
    if m < 0 then h.complexConj(base) else base
  }

  /** The factor `sph_harm` accumulates: for m < 0, Math.pow(-1, m) and, once
      m is negated, Math.pow(-1, -m), which cancel; for m >= 0 the single
      sign (-1)^m; each times the normalization at |m|. */
  lemma SphHarmFactorSigns(h: Helpers, m: int, l: int)
    ensures m < 0 ==>
      1.0 * MinusOnePow(m) * (MinusOnePow(-m) * SphHarmNorm(h, -m, l)) == SphHarmFactor(h, m, l)
    ensures m >= 0 ==>
      1.0 * (MinusOnePow(m) * SphHarmNorm(h, m, l)) == SphHarmFactor(h, m, l)
  {
    if m < 0 {
      var s, t, q := MinusOnePow(m), MinusOnePow(-m), SphHarmNorm(h, -m, l);
      MinusOnePowCancel(m);
      assert 1.0 * s * (t * q) == (s * t) * q;
    }
  }

  /** `sph_harm(m, l, theta, phi)`; `wasReflected` reports the code's `reflected` flag. */
  method SphHarm(h: Helpers, m: int, l: int, theta: real, phi: real) returns (r: Complex, ghost wasReflected: bool)
    ensures r == SphHarmValue(h, m, l, theta, phi)
    ensures wasReflected <==> m < 0
  {
    var m' := m;
    var factor := 1.0;
    var reflected := false;
    if m' < 0 {
      reflected := true;
      factor := factor * MinusOnePow(m');
      m' := -m';
    }
    factor := factor * (MinusOnePow(m') * SphHarmNorm(h, m', l));
    assert m' == Abs(m) && factor == SphHarmFactor(h, m, l) by {
      SphHarmFactorSigns(h, m, l);
    }
    var c, _ := Legendre(h, m', l, h.cos(theta));
    SphHarmBaseUnfold(h, factor, m', phi, c);
    var result := h.complexScale(h.complexExp(Complex(0.0, phi * (m' as real))), factor * c);
    r := if reflected then h.complexConj(result) else result;
    wasReflected := reflected;
  }

  /** For m > 0, Y_l^(-m) and Y_l^m are built at the same order m from the
      same phase and P_l^m: the first is the conjugate of the base with the
      bare normalization, the second is the base with (-1)^m times it.
      No property of the helpers is needed. */
  lemma SphHarmReflection(h: Helpers, m: int, l: int, theta: real, phi: real)
    requires m > 0
    ensures SphHarmValue(h, -m, l, theta, phi) ==
            h.complexConj(SphHarmBase(h, SphHarmNorm(h, m, l), m, phi, LegendreValue(h, m, l, h.cos(theta))))
    ensures SphHarmValue(h, m, l, theta, phi) ==
            SphHarmBase(h, MinusOnePow(m) * SphHarmNorm(h, m, l), m, phi, LegendreValue(h, m, l, h.cos(theta)))
  {
    assert SphHarmFactor(h, -m, l) == SphHarmNorm(h, m, l);
  }

  /** The helpers behave as the textbook complex scale and conjugate. */
  ghost predicate TextbookScaleConj(h: Helpers)
  {
    (forall z: Complex, s: real {:trigger h.complexScale(z, s)} :: h.complexScale(z, s) == Complex(z.re * s, z.im * s)) &&
    (forall z: Complex {:trigger h.complexConj(z)} :: h.complexConj(z) == Complex(z.re, -z.im))
  }

  /** Under the textbook scale and conjugate, scaling by n·p and
      conjugating equals scaling by (sg·n)·p, conjugating and scaling by sg,
      for a sign sg. */
  lemma ConjugateScaleSign(h: Helpers, e: Complex, n: real, p: real, sg: real)
    requires TextbookScaleConj(h)
    requires sg == 1.0 || sg == -1.0
    ensures h.complexConj(h.complexScale(e, n * p)) == h.complexScale(h.complexConj(h.complexScale(e, (sg * n) * p)), sg)
  {
    var plus := h.complexScale(e, (sg * n) * p);
    assert plus == Complex(e.re * ((sg * n) * p), e.im * ((sg * n) * p));
    assert e.re * ((sg * n) * p) * sg == e.re * (n * p) && -(e.im * ((sg * n) * p)) * sg == -(e.im * (n * p)) by {
      if sg == 1.0 {
      } else {
      }
    }
  }

  /** With the textbook scale and conjugate, Y_l^(-m) = (-1)^m · conj(Y_l^m) for m > 0. */
  lemma SphHarmConjugateSymmetry(h: Helpers, m: int, l: int, theta: real, phi: real)
    requires m > 0
    requires TextbookScaleConj(h)
    ensures SphHarmValue(h, -m, l, theta, phi) ==
            h.complexScale(h.complexConj(SphHarmValue(h, m, l, theta, phi)), MinusOnePow(m))
  {
    SphHarmReflection(h, m, l, theta, phi);
    SphHarmBaseUnfold(h, SphHarmNorm(h, m, l), m, phi, LegendreValue(h, m, l, h.cos(theta)));
    SphHarmBaseUnfold(h, MinusOnePow(m) * SphHarmNorm(h, m, l), m, phi, LegendreValue(h, m, l, h.cos(theta)));
    ConjugateScaleSign(h, h.complexExp(Complex(0.0, phi * (m as real))), SphHarmNorm(h, m, l),
                       LegendreValue(h, m, l, h.cos(theta)), MinusOnePow(m));
  }

  // ------------------------------------------------------ Orbital wavefunction

  /** 2Z / (n·a), the radial scale of the orbital. */
  function RadialScale(h: Helpers, n: int): real
  {
    Divide(h, 2.0 * Z, (n as real) * RadiusReduced)
  }

  /** The divisor of the radial normalization: product(n-l, n+l) · 2n. */
  function RadialNormDivisor(h: Helpers, n: int, l: int): real
  {
    h.product(n - l, n + l) * 2.0 * (n as real)
  }

  /** The radicand of the radial normalization: (2Z/(n·a))^3 / (product(n-l, n+l) · 2n). */
  function RadialNormRadicand(h: Helpers, n: int, l: int): real
  {
    Divide(h, h.pow(RadialScale(h, n), 3.0), RadialNormDivisor(h, n, l))
  }

  /** norm · e^(-ρ/2) · ρ^l · laguerre(n-l-1, 2l+1, ρ) at the distance of x. */
  function RadialAmplitude(h: Helpers, n: int, l: int, x: Vector3): real
  {
    var normalizeR := h.sqrt(RadialNormRadicand(h, n, l));
    var r := h.sqrt(x.x0 * x.x0 + x.x1 * x.x1 + x.x2 * x.x2);
    var rho := RadialScale(h, n) * r;
    normalizeR * h.exp(-rho / 2.0) * h.pow(rho, l as real) * LaguerreSum(h, n - l - 1, 2 * l + 1, rho)
  }

  /** The energy phase τ at time t. */
  function Tau(h: Helpers, n: int, t: real): real
  {
    Divide(h, -(Z * Z * HBar * HBar), 2.0 * MassReduced * RadiusReduced * RadiusReduced * (n as real) * (n as real)) / HBar * t
  }

  /** The spatial amplitude: the real radial amplitude times Y_l^m at the
      direction of x.  It does not depend on the time. */
  function SpatialPart(h: Helpers, n: int, l: int, m: int, x: Vector3): Complex
  {
    h.complexMult(Complex(RadialAmplitude(h, n, l, x), 0.0), SphHarmValue(h, m, l, h.inclination(x), h.azimuth(x)))
  }

  /** The temporal factor complex_exp([-τ, 0]).  It depends only on n and t. */
  function TemporalPart(h: Helpers, n: int, t: real): Complex
  {
    h.complexExp(Complex(-Tau(h, n, t), 0.0))
  }

  /** `psi_orbital(n, l, m, x, t)`: the spatial amplitude, radial times
      angular, multiplied by the temporal factor. */
  function PsiOrbital(h: Helpers, n: int, l: int, m: int, x: Vector3, t: real): Complex
  {
    h.complexMult(SpatialPart(h, n, l, m, x), TemporalPart(h, n, t))
  }

  /** At t = 0 the phase τ is 0, so under the textbook complex product and
      with complex_exp([0, 0]) = [1, 0], psi_orbital is its spatial amplitude. */
  lemma PsiOrbitalAtTimeZero(h: Helpers, n: int, l: int, m: int, x: Vector3)
    requires TextbookMult(h) && h.complexExp(Complex(0.0, 0.0)) == Complex(1.0, 0.0)
    ensures PsiOrbital(h, n, l, m, x, 0.0) == SpatialPart(h, n, l, m, x)
  {
    assert -Tau(h, n, 0.0) == 0.0;
    var s := SpatialPart(h, n, l, m, x);
    assert h.complexMult(s, Complex(1.0, 0.0)) == s;
  }

  /** For a `product` that multiplies its range, the normalization divisor is
      0 whenever n >= 1 and l >= n, because the range n-l .. n+l holds 0. */
  lemma RangeProductDivisorZero(h: Helpers, n: int, l: int)
    requires n >= 1 && l >= n
    requires forall a: int, b: int {:trigger h.product(a, b)} :: a <= 0 <= b ==> h.product(a, b) == 0.0
    ensures RadialNormDivisor(h, n, l) == 0.0
  {
    assert h.product(n - l, n + l) == 0.0;
  }

  /** When l >= n the Laguerre degree n-l-1 is negative, so laguerre's loop
      never runs and the Laguerre factor of the radial amplitude is 0. */
  lemma RadialLaguerreVanishes(h: Helpers, n: int, l: int, rho: real)
    requires l >= n
    ensures LaguerreSum(h, n - l - 1, 2 * l + 1, rho) == 0.0
  {
    assert LaguerreCoefficients(h, n - l - 1, 2 * l + 1) == [];
  }

  /** When l >= n and the radial normalization is a number (its divisor is
      not zero and its radicand not negative), the radial amplitude is 0. */
  lemma RadialVanishesUnlessLBelowN(h: Helpers, n: int, l: int, x: Vector3)
    requires l >= n
    requires RadialNormDivisor(h, n, l) != 0.0 && RadialNormRadicand(h, n, l) >= 0.0
    ensures RadialAmplitude(h, n, l, x) == 0.0
  {
    var r := h.sqrt(x.x0 * x.x0 + x.x1 * x.x1 + x.x2 * x.x2);
    RadialLaguerreVanishes(h, n, l, RadialScale(h, n) * r);
  }

  /** The helper multiplies as the textbook complex product. */
  ghost predicate TextbookMult(h: Helpers)
  {
    forall z: Complex, w: Complex {:trigger h.complexMult(z, w)} ::
      h.complexMult(z, w) == Complex(z.re * w.re - z.im * w.im, z.re * w.im + z.im * w.re)
  }

  /** With the textbook complex product, psi_orbital is exactly zero when
      l >= n and the radial normalization is a number. */
  lemma PsiOrbitalVanishesUnlessLBelowN(h: Helpers, n: int, l: int, m: int, x: Vector3, t: real)
    requires l >= n
    requires RadialNormDivisor(h, n, l) != 0.0 && RadialNormRadicand(h, n, l) >= 0.0
    requires TextbookMult(h)
    ensures PsiOrbital(h, n, l, m, x, t) == Complex(0.0, 0.0)
  {
    RadialVanishesUnlessLBelowN(h, n, l, x);
    var zero := Complex(0.0, 0.0);
    assert h.complexMult(zero, SphHarmValue(h, m, l, h.inclination(x), h.azimuth(x))) == zero;
    assert h.complexMult(zero, TemporalPart(h, n, t)) == zero;
  }
}
