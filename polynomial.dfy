/** Polynomials given by their coefficients from the highest power down,
    and the Horner step the evaluators' accumulation loops perform. */
module Polynomial {
  import opened Primitives

  /** The closed form: cs[0]·x^(d) + cs[1]·x^(d-1) + … + cs[d], d = |cs| - 1. */
  function PolySum(cs: seq<real>, x: real): real
  {
    if cs == [] then 0.0 else cs[0] * Power(x, |cs| - 1) + PolySum(cs[1..], x)
  }

  /** What an accumulation loop `y = 0; for c in cs: y = y·x + c` computes. */
  function Horner(cs: seq<real>, x: real): real
  {
    if cs == [] then 0.0 else Horner(cs[..|cs| - 1], x) * x + cs[|cs| - 1]
  }

  /** One step of the Horner scheme over a prefix of the coefficients. */
  lemma HornerPrefixStep(cs: seq<real>, i: nat, x: real)
    requires i < |cs|
    ensures Horner(cs[..i + 1], x) == Horner(cs[..i], x) * x + cs[i]
  {
    assert cs[..i + 1][..i] == cs[..i];
  }

  /** One Horner step, `y·x + c`, appends the coefficient c to the closed
      form: every power already present rises by one. */
  lemma {:induction false} PolySumSnoc(cs: seq<real>, c: real, x: real)
    ensures PolySum(cs + [c], x) == PolySum(cs, x) * x + c
  {
    if cs == [] {
      assert [] + [c] == [c];
    } else {
      var t := cs[1..];
      assert (cs + [c])[1..] == t + [c];
      PolySumSnoc(t, c, x);
      calc {
        PolySum(cs + [c], x);
        cs[0] * Power(x, |cs|) + PolySum(t + [c], x);
        cs[0] * (x * Power(x, |cs| - 1)) + (PolySum(t, x) * x + c);
        (cs[0] * Power(x, |cs| - 1) + PolySum(t, x)) * x + c;
      }
    }
  }

  /** The Horner loop computes the closed-form sum of weighted powers. */
  lemma {:induction false} HornerIsPolySum(cs: seq<real>, x: real)
    ensures Horner(cs, x) == PolySum(cs, x)
  {
    if cs != [] {
      var init, last := cs[..|cs| - 1], cs[|cs| - 1];
      HornerIsPolySum(init, x);
      assert cs == init + [last];
      PolySumSnoc(init, last, x);
    }
  }
}
