/** Small facts about numbers that several modules share. */
module Numbers {

  function Min(a: nat, b: nat): nat { if a <= b then a else b }

  function Max(a: nat, b: nat): nat { if a >= b then a else b }

  function Abs(x: real): real { if x < 0.0 then -x else x }

  /** Total movement of a signal that starts at `from`. */
  function Variation(from: real, xs: seq<real>): (v: real)
    ensures v >= 0.0
    decreases |xs|
  {
    if xs == [] then 0.0 else Abs(xs[0] - from) + Variation(xs[0], xs[1..])
  }

  lemma VariationTriangle(a: real, b: real, xs: seq<real>)
    ensures Variation(a, xs) <= Abs(b - a) + Variation(b, xs)
  {
  }

  /** `n` times `h`, unrolled so that proofs stay linear. */
  function Times(n: nat, h: real): real { if n == 0 then 0.0 else h + Times(n - 1, h) }

  lemma {:induction false} TimesIsProduct(n: nat, h: real)
    ensures Times(n, h) == h * n as real
  {
    if n > 0 {
      TimesIsProduct(n - 1, h);
      var m := (n - 1) as real;
      assert n as real == m + 1.0;
      assert h * (m + 1.0) == h * m + h;
    }
  }

  lemma Scale(k: real, x: real, y: real)
    requires k >= 0.0 && x <= y
    ensures k * x <= k * y
  {
  }

  lemma DivideMono(x: real, y: real, b: real)
    requires b > 0.0 && x <= y
    ensures x / b <= y / b
  {
  }
}
