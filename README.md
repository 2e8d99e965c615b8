# Hydrogen orbital evaluators, modelled in Dafny

This project models `src/script/creative_coding/hydrogen_cloud/psi.ts`. That
module computes the time-dependent wavefunction of a hydrogen-like orbital
for a GPU-rendered visualization. It is built from four evaluators:

- `laguerre`, the generalized Laguerre polynomial;
- `legendre`, the associated Legendre function;
- `sph_harm`, the spherical harmonic;
- `psi_orbital`, the wavefunction.

Each evaluator also has an `.add` procedure. It registers the evaluator, after
its dependencies, on a GPU kernel session.

The model is written over exact `real` arithmetic. The helpers imported from
other modules are fields of a `Helpers` record of total functions, passed as
a parameter, and nothing is assumed about their values. This covers
`combination`, `factorial`, `permutation`, `product`, the `complex_*` and
`vector_*` helpers, and the transcendental `Math` functions. The powers
`Math.pow(-1, m)` and `Math.pow(2, l)` are modelled exactly; every other
`Math.pow` is the abstract `h.pow`. A JavaScript
division by a helper value that may be zero goes through `Divide`, whose
zero case is an abstract helper.

Files:

- `primitives.dfy` (module `Primitives`): complex values, the helper record,
  exact powers and signs.
- `polynomial.dfy` (module `Polynomial`): `PolySum`, the closed-form sum of
  weighted powers, and `Horner`, what an accumulation loop computes. Lemmas tie
  the two together.
- `psi.dfy` (module `Psi`):
  - `laguerre`, `legendre` and `sph_harm` become methods with the source's
    loops and reassignments. Each is proved equal to a reference function
    (`LaguerreSum`, `LegendreValue`, `SphHarmValue`).
  - The `factorial` and `permutation` call arguments are recorded in ghost
    traces and proved in range.
  - `psi_orbital` becomes the pure function `PsiOrbital`.
- `registration.dfy` (module `Registration`):
  - `GPUKernel` is a class whose `log` field lists every registration received.
  - Each `.add` procedure becomes a method that appends its registrations in
    source order.
  - A helper's `.add` from another module becomes one `Opaque` log entry.
  - Two log invariants are proved of every `.add` sequence (`DependenciesFirst`
    and `Consistent`, below), and every `.add` method preserves both.
  - `DependenciesFirst`: every function is registered after each registered
    function its body calls.
  - `Consistent`: every function is registered with the type tags the code
    declares for it.

## Notes on the code

- **Laguerre coefficient.** The term added at step i is
  `combination(n+k, i) / factorial(n-i)` (psi.ts:29). The later steps multiply
  it by `(-x)^(n-i)`. With j = n-i the sum reads Σ_j C(n+k, n-j)·(-x)^j / j!,
  which is the textbook series for L_n^k. `Laguerre` is proved against that
  sum, and `LaguerreDegreeTwo` checks it at degree 2 with textbook helper
  values.
- **Order of the `l` reflection.** The `|m| > l` exit (psi.ts:43) comes before
  the reflection of a negative `l` (psi.ts:44). Since `|m| >= 0`, every `l < 0`
  takes that exit, so psi.ts:44 never changes `l`. `Legendre` proves this
  (`assert l' == l` after the reflection) and returns 0 for every `l < 0`.
- **Sign factor for negative `m`.** `(-1)^m·product(l-m+1, l+m)` is multiplied
  in while `m` is still negative, before `m = -m` (psi.ts:47-48).
- **Temporal phase.** psi.ts:83 passes `[0, phi*m]` to `complex_exp` in the
  `[re, im]` convention, and psi.ts:130 passes `[-tau, 0]`, which puts `-tau`
  in the real slot. `complex_exp` is not part of this model, so no claim about
  the magnitude over time is made.
- **Radial normalization for l ≥ n.** For l ≥ n ≥ 1 the range of
  `product(n-l, n+l)` (psi.ts:110) contains 0, so a `product` that multiplies
  its range returns 0 (`RangeProductDivisorZero`). `normalize_r` is then an
  infinity, and `_radial[0]` is NaN even though the Laguerre factor is 0. The
  two lemmas that conclude a zero amplitude require a finite normalization,
  which such a `product` never gives when n ≥ 1.

No finding about the source is claimed.

## Model

| member | source | states |
|---|---|---|
| Primitives.Abs | src/script/creative_coding/hydrogen_cloud/psi.ts:43 | `Math.abs(m)` is a natural number equal to m or -m. |
| Primitives.MinusOnePow | src/script/creative_coding/hydrogen_cloud/psi.ts:47-50 | `Math.pow(-1, m)` on an integer is 1 or -1. |
| Primitives.MinusOnePowIsPower | src/script/creative_coding/hydrogen_cloud/psi.ts:47-50 | For every natural m, the parity-based `Math.pow(-1, m)` equals the power (-1)^m, so the model of the sign is exact. |
| Primitives.MinusOnePowCancel | src/script/creative_coding/hydrogen_cloud/psi.ts:46-50 | `Math.pow(-1, m)·Math.pow(-1, -m) = 1`: the two signs a negative order contributes cancel. |
| Polynomial.HornerPrefixStep | src/script/creative_coding/hydrogen_cloud/psi.ts:28-29 | One loop step `y = y·x + c_i` extends the Horner value of the first i coefficients to the first i+1. |
| Polynomial.PolySumSnoc | src/script/creative_coding/hydrogen_cloud/psi.ts:53-57 | Appending a coefficient c to the closed-form sum gives `sum·x + c`. |
| Polynomial.HornerIsPolySum | src/script/creative_coding/hydrogen_cloud/psi.ts:26-30 | The accumulation loop's value equals the closed-form weighted sum of powers, for every coefficient list. |
| Psi.FactorialCalls | src/script/creative_coding/hydrogen_cloud/psi.ts:27-29 | laguerre calls factorial once per term, and every argument n-i lies in [0, n]. |
| Psi.LaguerreSeriesStep | src/script/creative_coding/hydrogen_cloud/psi.ts:28-29 | One iteration `y *= -x; y += C(n+k,i)/factorial(n-i)` advances the Horner value by one coefficient. |
| Psi.LaguerreDegreeTwo | src/script/creative_coding/hydrogen_cloud/psi.ts:25-31 | With textbook factorial and combination values at the points used, laguerre(2, k, x) = x²/2 - (k+2)·x + (k+2)(k+1)/2, the textbook L_2^k. |
| Psi.Laguerre | src/script/creative_coding/hydrogen_cloud/psi.ts:25-31 | The loop returns Σ_{i=0..n} combination(n+k,i)/factorial(n-i)·(-x)^(n-i). The result is 0 when n < 0. The factorial arguments are exactly n, n-1, …, 0. |
| Psi.LegendreFactorSigns | src/script/creative_coding/hydrogen_cloud/psi.ts:45-50 | For m < 0 the accumulated factor `(-1)^m·product(l-m+1, l+m)·(-1)^(-m)·2^l` equals `product(l-m+1, l+m)·2^l`. For m ≥ 0 it equals `(-1)^m·2^l`. |
| Psi.LegendreOrderFactor | src/script/creative_coding/hydrogen_cloud/psi.ts:45-50 | After the sign block, m is \|m_in\| and factor is `product(l-m_in+1, l+m_in)·2^l` for m_in < 0, else `(-1)^m_in·2^l`. |
| Psi.PermutationCalls | src/script/creative_coding/hydrogen_cloud/psi.ts:52-57 | For 0 ≤ m ≤ l the loop calls permutation l-m+1 ≥ 1 times, each time as permutation(l-i, m) with l-i ≥ m ≥ 0. |
| Psi.LegendreSeriesStep | src/script/creative_coding/hydrogen_cloud/psi.ts:53-57 | One iteration `y *= x; y += …` advances the Horner value by one coefficient. |
| Psi.LegendreSeries | src/script/creative_coding/hydrogen_cloud/psi.ts:51-58 | The loop's accumulator is Σ_{i=0..l-m} combination(l,l-i)·combination((2l-i-1)/2,l)·permutation(l-i,m)·x^(l-m-i). Its permutation calls are exactly (l-i, m), i = 0..l-m. |
| Psi.Legendre | src/script/creative_coding/hydrogen_cloud/psi.ts:41-60 | Returns the Legendre value. It is 0, with no permutation call, whenever \|m\| > l, hence for every l < 0, so the reflection at line 44 never changes l. Otherwise the series runs at order \|m\| with the permutation calls above. |
| Psi.LegendreDegreeZero | src/script/creative_coding/hydrogen_cloud/psi.ts:41-60 | legendre(0, 0, x) = 1 when the helpers take their textbook values at the points used. |
| Psi.LegendreDegreeOneCoefficients | src/script/creative_coding/hydrogen_cloud/psi.ts:54-57 | With textbook helper values, the degree-one coefficients are [1/2, 0]. |
| Psi.LegendreDegreeOne | src/script/creative_coding/hydrogen_cloud/psi.ts:41-60 | legendre(0, 1, x) = x when the helpers take their textbook values at the points used, including combination(1/2, 1) = 1/2. |
| Psi.SphHarmFactorSigns | src/script/creative_coding/hydrogen_cloud/psi.ts:72-81 | For m < 0 the factor `(-1)^m·(-1)^(-m)·norm(\|m\|)` is the bare normalization: the signs cancel. For m ≥ 0 it is `(-1)^m·norm(m)`. |
| Psi.SphHarm | src/script/creative_coding/hydrogen_cloud/psi.ts:70-85 | Returns the spherical harmonic, in which legendre and the phase `[0, phi·m]` both receive \|m\|. `reflected` is true exactly when m < 0, and exactly then is the result conjugated. |
| Psi.ConjugateScaleSign | src/script/creative_coding/hydrogen_cloud/psi.ts:83-84 | Under the textbook complex scale and conjugate, conjugating a scaled value equals rescaling by a sign ±1 around a conjugate. |
| Psi.SphHarmConjugateSymmetry | src/script/creative_coding/hydrogen_cloud/psi.ts:70-85 | For m > 0, `sph_harm(-m, l, θ, φ) = (-1)^m·conj(sph_harm(m, l, θ, φ))` under the textbook complex scale and conjugate. |
| Psi.RadialLaguerreVanishes | src/script/creative_coding/hydrogen_cloud/psi.ts:121-127 | When l ≥ n, the factor laguerre(n-l-1, 2l+1, ρ) of the radial amplitude is 0 for every ρ: its degree is negative, so the laguerre loop (psi.ts:25-31) never runs. |
| Psi.RadialVanishesUnlessLBelowN | src/script/creative_coding/hydrogen_cloud/psi.ts:108-127 | When l ≥ n and the normalization divisor `product(n-l, n+l)·2n` is non-zero with a non-negative radicand, the radial amplitude `_radial[0]` is 0. |
| Psi.PsiOrbital | src/script/creative_coding/hydrogen_cloud/psi.ts:97-132 | Definition, no contract: composes normalize_r, ρ, τ, `_radial`, `_angular` and `complex_exp([-τ, 0])` as psi.ts:108-131 does. Its numeric value is left out. |
| Psi.PsiOrbitalAtTimeZero | src/script/creative_coding/hydrogen_cloud/psi.ts:116-131 | At t = 0 the phase τ is 0, so under the textbook complex product and with complex_exp([0, 0]) = [1, 0], psi_orbital equals its spatial amplitude `_spatial`. |
| Psi.RangeProductDivisorZero | src/script/creative_coding/hydrogen_cloud/psi.ts:108-111 | For a `product` that is 0 on every range holding 0, the divisor `product(n-l, n+l)·2n` is 0 whenever n ≥ 1 and l ≥ n. |
| Psi.PsiOrbitalVanishesUnlessLBelowN | src/script/creative_coding/hydrogen_cloud/psi.ts:97-132 | Under the textbook complex product, and when the radial normalization is a number, psi_orbital(n, l, m, x, t) = 0 whenever l ≥ n. |
| Registration.GPUKernel.constructor | src/script/creative_coding/hydrogen_cloud/psi.ts:19 | A new kernel session has registered nothing. |
| Registration.GPUKernel.AddFunction | src/script/creative_coding/hydrogen_cloud/psi.ts:36-39 | `gpu.addFunction(f, signature)` appends exactly one registration of f with that signature. |
| Registration.AddHelper | src/script/creative_coding/hydrogen_cloud/psi.ts:34-35 | A helper's `.add` from another module appends one opaque entry for that helper. |
| Registration.LaguerreAdd | src/script/creative_coding/hydrogen_cloud/psi.ts:33-40 | Appends combination, factorial, then laguerre with `{n: Integer, k: Integer, x: Float} -> Float`. Keeps both log invariants. |
| Registration.LegendreAdd | src/script/creative_coding/hydrogen_cloud/psi.ts:61-69 | Appends product, combination, permutation, then legendre with `{m: Integer, l: Integer, x: Float} -> Float`. Keeps both log invariants. |
| Registration.SphHarmAdd | src/script/creative_coding/hydrogen_cloud/psi.ts:86-96 | Appends product, complex_conj, complex_scale, complex_exp, legendre.add's log, then sph_harm with `{m, l: Integer, theta, phi: Float} -> Array(2)`. Keeps both log invariants. |
| Registration.PsiOrbitalAdd | src/script/creative_coding/hydrogen_cloud/psi.ts:133-153 | Appends arctan2, product, laguerre.add's log, sph_harm.add's log, complex_mult, complex_exp, vector_inclination, vector_alzimuth, then psi_orbital with `{n, l, m: Integer, x: Array(3), t: Float} -> Array(2)`. Keeps both log invariants. |
| Registration.DependenciesFirstAppend | src/script/creative_coding/hydrogen_cloud/psi.ts:133-142 | A procedure that registers after earlier ones keeps dependencies first, provided its own dependencies are among what came before. |
| Registration.ConsistentAppend | src/script/creative_coding/hydrogen_cloud/psi.ts:133-153 | Joining two logs whose registrations carry their declared signatures keeps that property. |
| Registration.RegisteredFunctionsAppend | src/script/creative_coding/hydrogen_cloud/psi.ts:133-153 | The functions registered with a signature by two logs in sequence are those of the first followed by those of the second. |
| Registration.AppendClosed | src/script/creative_coding/hydrogen_cloud/psi.ts:133-142 | Two dependencies-first logs in sequence are dependencies-first. |
| Registration.AppendOwn | src/script/creative_coding/hydrogen_cloud/psi.ts:143-152 | The closing addFunction keeps the log dependencies-first when every function the body calls is already registered. |
| Registration.KeepsInvariants | src/script/creative_coding/hydrogen_cloud/psi.ts:133-153 | A registration sequence that is dependencies-first and consistent keeps both invariants of any session log it is appended to. |
| Registration.HelperAddsFacts | src/script/creative_coding/hydrogen_cloud/psi.ts:134-142 | A run of helper `.add` calls registers the named helpers and nothing with a signature. |
| Registration.OwnEntry | src/script/creative_coding/hydrogen_cloud/psi.ts:143-152 | A lone addFunction entry with the declared signature is consistent and registers exactly that function. |
| Registration.LaguerreRegistrationDependenciesFirst | src/script/creative_coding/hydrogen_cloud/psi.ts:33-40 | laguerre.add registers combination and factorial, the functions laguerre calls, before laguerre. |
| Registration.LaguerreRegistrationSignatures | src/script/creative_coding/hydrogen_cloud/psi.ts:33-40 | laguerre.add ends with its own addFunction, carries the declared tags, and registers nothing else with a signature. |
| Registration.LegendreRegistrationDependenciesFirst | src/script/creative_coding/hydrogen_cloud/psi.ts:61-69 | legendre.add registers product, combination and permutation before legendre. |
| Registration.LegendreRegistrationSignatures | src/script/creative_coding/hydrogen_cloud/psi.ts:61-69 | legendre.add ends with its own addFunction, carries the declared tags, and registers nothing else with a signature. |
| Registration.SphHarmRegistrationDependenciesFirst | src/script/creative_coding/hydrogen_cloud/psi.ts:86-96 | sph_harm.add registers every function sph_harm calls, legendre through legendre.add, before sph_harm. |
| Registration.SphHarmRegistrationSignatures | src/script/creative_coding/hydrogen_cloud/psi.ts:86-96 | sph_harm.add ends with its own addFunction, and registers with a signature exactly legendre, then sph_harm, each with its declared tags. |
| Registration.PsiOrbitalRegistrationDependenciesFirst | src/script/creative_coding/hydrogen_cloud/psi.ts:133-153 | psi_orbital.add registers each function psi_orbital calls before psi_orbital: laguerre and sph_harm through their `.add`, and legendre inside sph_harm.add. |
| Registration.PsiOrbitalRegistrationSignatures | src/script/creative_coding/hydrogen_cloud/psi.ts:133-153 | psi_orbital.add ends with its own addFunction. It registers with a signature exactly laguerre, legendre, sph_harm and psi_orbital, in that order, each with its declared tags. |

## Left out

- Floating point: rounding, overflow, NaN and infinities are not modelled. Arithmetic is exact `real`. Division by a zero helper value yields an abstract `divideByZero` value.
- The bodies of `combination`, `factorial`, `permutation`, `product`, `arctan2`, `complex_exp`, `complex_mult`, `complex_scale`, `complex_conj`, `vector_inclination` and `vector_alzimuth`: the modules defining them are not part of this model. They are abstract fields of `Helpers`.
- `Math.sqrt`, `Math.cos`, `Math.exp` and `Math.PI` are abstract as well, and so is every `Math.pow` other than (-1)^m and 2^l (psi.ts:59 with exponent m/2, psi.ts:109 with exponent 3.0, psi.ts:124 with exponent l). No numeric claim is made about them.
- What a helper's own `.add` registers (for example, whatever `combination.add` registers itself) is not modelled. Each such call is one opaque log entry, so `DependenciesFirst` covers the direct callees of this module's four functions only.
- Deduplication and idempotence of repeated registrations are left out: they belong to the external kernel compiler behind `gpu.addFunction`. The log keeps every call. For example, `product` appears three times in psi_orbital.add's log.
- psi_orbital's numeric value: magnitude preservation over time and the spherical symmetry of the 1s orbital are not modelled. `PsiOrbital` is a definition that only composes the parts. The lemmas state its value at t = 0, and when its Laguerre factor vanishes.
- The exported module-level constants (psi.ts:20-23) are not modelled separately: `psi_orbital` shadows them with locals of the same values (psi.ts:104-107), which the `Psi` constants record.
- Laguerre: only the `factorial` call arguments are traced. The `combination` arguments appear only inside the coefficient.
- Legendre: the final `Math.pow(1 - x*x, m/2)` is an abstract helper, and the series is not claimed to be the textbook associated Legendre function except at degrees 0 and 1.
- LegendreDegreeZero: holds only under the stated textbook helper values at the points it uses, because the helpers' bodies are outside the model.
- LegendreDegreeOne: holds only under the stated textbook helper values at the points it uses, because the helpers' bodies are outside the model.
- SphHarmConjugateSymmetry: holds only assuming `complex_scale` and `complex_conj` behave as the textbook operations (`TextbookScaleConj`), because their bodies are outside the model.
- PsiOrbitalVanishesUnlessLBelowN: holds only assuming `complex_mult` is the textbook complex product (`TextbookMult`), for the same reason.
- RadialVanishesUnlessLBelowN: requires a non-zero normalization divisor and a non-negative radicand. For a `product` that multiplies its range there is no such input with n ≥ 1 (`RangeProductDivisorZero`): the divisor is 0, the source's `normalize_r` is infinite and `_radial[0]` is NaN, not 0. The model has no NaN, so the lemma covers only an abstract `product` that is non-zero there.
- PsiOrbitalVanishesUnlessLBelowN: requires the same finite normalization, which for a range `product` no input with n ≥ 1 meets. There, psi_orbital returns NaN components, not 0, and the lemma says nothing.
- LaguerreDegreeTwo: holds only under the stated textbook factorial and combination values at the points it uses.
- PsiOrbitalAtTimeZero: holds only assuming the textbook complex product and complex_exp([0, 0]) = [1, 0].
- SphHarm: `reflected` is reported as a ghost out-parameter. The source keeps it as a local.
- The React component at `src/components/creative_coding/dungeon/index.tsx` is UI lifecycle code with no modelled logic.
