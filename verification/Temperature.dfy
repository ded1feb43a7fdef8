/** What temperature, share and draw mean for the token picked: laws of `Sampler` that
    mention neither its weights nor its loops. */
module Temperature {
  import opened Sampler

  function ScaledKey(x: Key, f: real): Key {
    match x case NegInf => NegInf case Fin(v) => Fin(Scale(f, v))
  }

  /** Every logit times one factor. */
  function ScaledItems(c: seq<Item>, f: real): (d: seq<Item>)
    ensures |d| == |c|
  {
    seq(|c|, n requires 0 <= n < |c| => Item(ScaledKey(c[n].key, f), c[n].id))
  }

  function ShiftedKey(x: Key, a: real): Key {
    match x case NegInf => NegInf case Fin(v) => Fin(v + a)
  }

  function ShiftedItems(c: seq<Item>, a: real): (d: seq<Item>)
    ensures |d| == |c|
  {
    seq(|c|, n requires 0 <= n < |c| => Item(ShiftedKey(c[n].key, a), c[n].id))
  }

  lemma Cancelled(f: real, v: real, m: real, t: real)
    requires f > 0.0 && t > 0.0
    ensures Scale(f, t) > 0.0 && (Scale(f, v) - Scale(f, m)) / Scale(f, t) == (v - m) / t
  {
    Positive2(f, t);
    var q := (v - m) / t;
    assert v - m == q * t;
    assert f * v - f * m == f * (v - m);
    Reorder(f, q, t);
    QuotientIs(f * v - f * m, f * t, q);
  }

  lemma Positive2(f: real, t: real)
    requires f > 0.0 && t > 0.0
    ensures f * t > 0.0
  {
  }

  lemma Reorder(f: real, q: real, t: real)
    ensures f * (q * t) == q * (f * t)
  {
  }

  lemma QuotientIs(a: real, b: real, q: real)
    requires b > 0.0 && a == q * b
    ensures a / b == q
  {
  }

  lemma OneWeight(exp: real -> real, x: Key, m: real, t: real, f: real)
    requires t > 0.0 && f > 0.0
    ensures Scale(f, t) > 0.0 && Weight(exp, ScaledKey(x, f), Scale(f, m), Scale(f, t)) == Weight(exp, x, m, t)
  {
    hide Scale;
    Cancelled(f, 0.0, m, t);
    if x.Fin? {
      Cancelled(f, x.v, m, t);
    }
  }

  /** The weights do not change if all logits and the temperature are multiplied by one
      positive factor. */
  lemma ScaledWeights(exp: real -> real, c: seq<Item>, t: real, f: real)
    requires |c| == TOP_K && t > 0.0 && f > 0.0 && c[0].key.Fin?
    ensures Scale(f, t) > 0.0 && Weights(exp, ScaledItems(c, f), Scale(f, t)) == Weights(exp, c, t)
  {
    hide Weight, Scale;
    OneWeight(exp, c[0].key, 0.0, t, f);
    var d, m := ScaledItems(c, f), c[0].key.v;
    forall n | 0 <= n < TOP_K ensures Weights(exp, d, Scale(f, t))[n] == Weights(exp, c, t)[n] {
      OneWeight(exp, c[n].key, m, t, f);
    }
  }

  /** Nor does the pick, whatever the exponential. */
  lemma PickScaled(exp: real -> real, t: real, topP: real, c: seq<Item>, u: real, f: real)
    requires |c| == TOP_K && t > 0.0 && f > 0.0 && c[0].key.Fin?
    ensures Scale(f, t) > 0.0 && Pick(exp, Scale(f, t), topP, ScaledItems(c, f), u) == Pick(exp, t, topP, c, u)
  {
    hide Weights, Scale;
    ScaledWeights(exp, c, t, f);
  }

  /** Adding one number to all logits changes nothing either. */
  lemma PickShifted(exp: real -> real, t: real, topP: real, c: seq<Item>, u: real, a: real)
    requires |c| == TOP_K && t > 0.0 && c[0].key.Fin?
    ensures Pick(exp, t, topP, ShiftedItems(c, a), u) == Pick(exp, t, topP, c, u)
  {
    var d, m := ShiftedItems(c, a), c[0].key.v;
    forall n | 0 <= n < TOP_K ensures Weights(exp, d, t)[n] == Weights(exp, c, t)[n] {
      if c[n].key.Fin? {
        assert (c[n].key.v + a) - (m + a) == c[n].key.v - m;
      }
    }
    assert Weights(exp, d, t) == Weights(exp, c, t);
  }

  ghost predicate Exponential(exp: real -> real) {
    forall a: real, b: real :: exp(a + b) == exp(a) * exp(b)
  }

  /** Under an exponential, halving the temperature squares every weight. */
  lemma HalvedSquares(exp: real -> real, c: seq<Item>, t: real, n: nat)
    requires |c| == TOP_K && t > 0.0 && c[0].key.Fin? && n < TOP_K && Exponential(exp)
    ensures Weights(exp, c, t / 2.0)[n] == Weights(exp, c, t)[n] * Weights(exp, c, t)[n]
  {
    if c[n].key.Fin? {
      var x := (c[n].key.v - c[0].key.v) / t;
      Halved(c[n].key.v - c[0].key.v, t);
      assert exp(x + x) == exp(x) * exp(x);
    }
  }

  lemma Halved(a: real, t: real)
    requires t > 0.0
    ensures a / (t / 2.0) == a / t + a / t
  {
    var q := a / t;
    assert a == q * t;
    assert a == (q + q) * (t / 2.0);
    QuotientIs(a, t / 2.0, q + q);
  }

  // ---- Share and draw -------------------------------------------------------------------------

  /** A share of nothing keeps the first candidate only, and so picks it. */
  lemma NoShare(exp: real -> real, t: real, c: seq<Item>, u: real)
    requires |c| == TOP_K && t > 0.0 && c[0].key.Fin? && Positive(exp)
    ensures Nucleus(Weights(exp, c, t), 0.0) == 1 && Pick(exp, t, 0.0, c, u) == 0
  {
    hide Weights;
    var p := Weights(exp, c, t);
    WeightsPositive(exp, c, t);
    MassGrows(p, 0, 1);
  }

  /** Candidate `i` of the nucleus is picked exactly for the numbers between its two
      bounds on the nucleus' mass. */
  lemma PickIff(exp: real -> real, t: real, topP: real, c: seq<Item>, u: real, i: nat)
    requires |c| == TOP_K && t > 0.0 && c[0].key.Fin? && Positive(exp) && 0.0 <= u < 1.0
    ensures var p := Weights(exp, c, t); var n := Nucleus(p, topP);
      i == Pick(exp, t, topP, c, u) <==> i < n && u * Mass(p, n) <= Mass(p, i + 1) && (i > 0 ==> Mass(p, i) < u * Mass(p, n))
  {
    hide Weights, Nucleus, Mass, DrawAt;
    var p := Weights(exp, c, t);
    var n := Nucleus(p, topP);
    WeightsPositive(exp, c, t);
    MassGrows(p, 0, n);
    ScaledDraw(u, Mass(p, n));
    DrawIsInverse(p, Scale(u, Mass(p, n)), n, 0);
    var k := Pick(exp, t, topP, c, u);
    if i < k {
      MassGrows(p, i + 1, k);
    } else if k < i < n {
      MassGrows(p, k + 1, i);
    }
  }

  /** The nucleus is the smallest prefix with the share asked for. */
  lemma NucleusIff(p: seq<real>, topP: real, n: nat)
    requires Weighty(p) && 0.0 <= topP <= 1.0
    ensures n == Nucleus(p, topP) <==>
      0 < n <= |p| && Mass(p, n) >= topP * Mass(p, |p|) && forall m | 0 < m < n :: Mass(p, m) < topP * Mass(p, |p|)
  {
    hide Nucleus, Mass;
    NucleusSmallest(p, topP);
    var k := Nucleus(p, topP);
    assert Scale(topP, Mass(p, |p|)) == topP * Mass(p, |p|);
  }

  // ---- The generator -----------------------------------------------------------------------------

  /** The generator after one step from one. */
  lemma FirstNumber()
    ensures Step1(1) == 0x2001 && Step2(0x2001) == 0x2041 && Step3(0x2041) == 0x4082_2041
  {
  }

  lemma TopBits()
    ensures High24(0xc000_0000_0000_0000) == 0xc0_0000 && Uniform(0xc000_0000_0000_0000) == 0.75
  {
    assert High24(0xc000_0000_0000_0000) == 0xc0_0000;
  }

  /** The candidates are 64, and all of them logits if there are as many. */
  lemma SixtyFour(h: seq<Item>, logits: seq<real>)
    requires Largest(h, logits) && |logits| >= 64
    ensures |h| == 64 && forall n | 0 <= n < 64 :: h[n].key.Fin?
  {
    AllFinite(h, logits);
  }
}
