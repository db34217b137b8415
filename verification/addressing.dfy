/** The location-based steps of NTM addressing, each a pure function of its
    inputs: gated interpolation with the previous weighting, the circular
    shift, and sharpening followed by renormalisation. */
module Addressing {
  import opened Vectors
  import opened Convolution

  /** The constant added to the sharpening denominator (1e-16). */
  const Epsilon: real := 0.0000000000000001

  /** `_interpolate`: g * wc + (1 - g) * w_prev, entry by entry. A gate of 1
      yields the content weighting, a gate of 0 the previous weighting, and a
      gate in [0, 1] keeps non-negative weightings non-negative. */
  function Interpolate(wPrev: seq<real>, wc: seq<real>, g: real): (r: seq<real>)
    requires |wPrev| == |wc|
    ensures |r| == |wc|
    ensures g == 1.0 ==> r == wc
    ensures g == 0.0 ==> r == wPrev
    ensures 0.0 <= g <= 1.0 && NonNegative(wPrev) && NonNegative(wc) ==> NonNegative(r)
  {
    var r := seq(|wc|, i requires 0 <= i < |wc| => g * wc[i] + (1.0 - g) * wPrev[i]);
    GatedNonNegative(r, wc, wPrev, g);
    r
  }

  /** The mass of an interpolation is the gated blend of the two masses; in
      particular two distributions interpolate to a distribution when the
      gate lies in [0, 1]. */
  lemma {:induction false} InterpolateKeepsDistribution(wPrev: seq<real>, wc: seq<real>, g: real)
    requires |wPrev| == |wc|
    ensures Sum(Interpolate(wPrev, wc, g)) == g * Sum(wc) + (1.0 - g) * Sum(wPrev)
    ensures 0.0 <= g <= 1.0 && IsDistribution(wPrev) && IsDistribution(wc) ==>
      IsDistribution(Interpolate(wPrev, wc, g))
  {
    SumLinear(Interpolate(wPrev, wc, g), wc, wPrev, g, 1.0 - g);
  }

  /** A gated blend g*u + (1-g)*v of non-negative vectors is non-negative when g lies in [0, 1]. */
  lemma {:induction false} GatedNonNegative(r: seq<real>, u: seq<real>, v: seq<real>, g: real)
    requires |r| == |u| == |v|
    requires forall i :: 0 <= i < |r| ==> r[i] == g * u[i] + (1.0 - g) * v[i]
    ensures 0.0 <= g <= 1.0 && NonNegative(u) && NonNegative(v) ==> NonNegative(r)
  {
    if 0.0 <= g <= 1.0 && NonNegative(u) && NonNegative(v) {
      forall i | 0 <= i < |r|
        ensures 0.0 <= r[i]
      {
        GatedSumNonNegative(g, u[i], v[i]);
      }
    }
  }

  lemma {:induction false} GatedSumNonNegative(g: real, x: real, y: real)
    requires 0.0 <= g <= 1.0 && 0.0 <= x && 0.0 <= y
    ensures 0.0 <= g * x + (1.0 - g) * y
  {
    var h := 1.0 - g;
    ProductNonNegative(g, x);
    ProductNonNegative(h, y);
  }

  /** `_shift`: the circular convolution of the gated weighting with the shift
      weighting. A distribution shifted by a distribution is a distribution. */
  function Shift(wg: seq<real>, s: seq<real>): (r: Result<seq<real>>)
    requires |wg| >= 1
    ensures r.Err? <==> |s| != 3
    ensures r.Ok? ==> |r.value| == |wg|
    ensures r.Ok? && NonNegative(wg) && NonNegative(s) ==> NonNegative(r.value)
    ensures r.Ok? && IsDistribution(wg) && IsDistribution(s) ==> IsDistribution(r.value)
  {
    ConvolvePreservesMass(wg, s);
    Convolve(wg, s)
  }

  /** w_hat ** gamma, entry by entry. */
  function Powers(w: seq<real>, gamma: nat): (p: seq<real>)
    ensures |p| == |w|
  {
    seq(|w|, i requires 0 <= i < |w| => Pow(w[i], gamma))
  }

  /** The sum of the powers, S = sum of w_hat ** gamma. */
  function PowerMass(wHat: seq<real>, gamma: nat): (m: real)
    requires NonNegative(wHat)
    ensures 0.0 <= m
    ensures 0.0 < Sum(wHat) ==> 0.0 < m
  {
    PowersNonNegative(wHat, gamma);
    SumNonNegative(Powers(wHat, gamma));
    PowersPositiveMass(wHat, gamma);
    Sum(Powers(wHat, gamma))
  }

  /** `_sharpen`: raise every entry to gamma, then divide by the sum of the
      powers plus Epsilon. The result is non-negative and its mass is
      S / (S + Epsilon) for S the sum of the powers: below one, and positive
      when the input has positive mass. */
  function Sharpen(wHat: seq<real>, gamma: nat): (r: seq<real>)
    requires NonNegative(wHat)
    ensures |r| == |wHat| && NonNegative(r)
    ensures Sum(r) == PowerMass(wHat, gamma) / (PowerMass(wHat, gamma) + Epsilon)
    ensures Sum(r) < 1.0 && 1.0 - Sum(r) == Epsilon / (PowerMass(wHat, gamma) + Epsilon)
    ensures 0.0 < Sum(wHat) ==> 0.0 < Sum(r)
  {
    var p := Powers(wHat, gamma);
    var d := PowerMass(wHat, gamma) + Epsilon;
    var r := seq(|p|, i requires 0 <= i < |p| => p[i] / d);
    PowersNonNegative(wHat, gamma);
    SumDivided(r, p, d);
    QuotientsNonNegative(r, p, d);
    RatioBelowOne(Sum(p), Epsilon);
    r
  }

  lemma {:induction false} PowersNonNegative(w: seq<real>, gamma: nat)
    requires NonNegative(w)
    ensures NonNegative(Powers(w, gamma))
  {
    forall i | 0 <= i < |w|
      ensures 0.0 <= Powers(w, gamma)[i]
    {
      PowNonNegative(w[i], gamma);
    }
  }

  /** Powers of a non-negative vector with positive mass have positive mass. */
  lemma {:induction false} PowersPositiveMass(w: seq<real>, gamma: nat)
    requires NonNegative(w)
    ensures 0.0 < Sum(w) ==> 0.0 < Sum(Powers(w, gamma))
  {
    if 0.0 < Sum(w) {
      var p := Powers(w, gamma);
      var i := PositiveEntry(w);
      PowPositive(w[i], gamma);
      PowersNonNegative(w, gamma);
      EntryAtMostSum(p, i);
    }
  }

  lemma {:induction false} QuotientsNonNegative(r: seq<real>, p: seq<real>, d: real)
    requires 0.0 < d && |r| == |p| && NonNegative(p)
    requires forall i :: 0 <= i < |r| ==> r[i] == p[i] / d
    ensures NonNegative(r)
  {
  }

  /** x / (x + e) for x >= 0 and e > 0 lies in [0, 1), falls short of one by
      exactly e / (x + e), and is positive when x is. */
  lemma {:induction false} RatioBelowOne(x: real, e: real)
    requires 0.0 <= x && 0.0 < e
    ensures 0.0 <= x / (x + e) < 1.0
    ensures 1.0 - x / (x + e) == e / (x + e)
    ensures 0.0 < x ==> 0.0 < x / (x + e)
  {
    assert x / (x + e) + e / (x + e) == (x + e) / (x + e) == 1.0;
  }

  /** Sharpening keeps zero entries at zero (for gamma at least one). */
  lemma {:induction false} SharpenKeepsZeros(wHat: seq<real>, gamma: nat, i: nat)
    requires NonNegative(wHat) && gamma >= 1 && i < |wHat| && wHat[i] == 0.0
    ensures Sharpen(wHat, gamma)[i] == 0.0
  {
    assert Powers(wHat, gamma)[i] == Pow(wHat[i], gamma) == 0.0;
  }

  /** Sharpening keeps the order of the entries: a larger input entry never
      gets a smaller share. */
  lemma {:induction false} SharpenKeepsOrder(wHat: seq<real>, gamma: nat, i: nat, j: nat)
    requires NonNegative(wHat) && i < |wHat| && j < |wHat| && wHat[i] <= wHat[j]
    ensures Sharpen(wHat, gamma)[i] <= Sharpen(wHat, gamma)[j]
  {
    var p := Powers(wHat, gamma);
    PowersNonNegative(wHat, gamma);
    SumNonNegative(p);
    PowMonotone(wHat[i], wHat[j], gamma);
    DivideMonotone(p[i], p[j], Sum(p) + Epsilon);
  }

  lemma {:induction false} DivideMonotone(x: real, y: real, d: real)
    requires x <= y && 0.0 < d
    ensures x / d <= y / d
  {
  }

  /** With gamma = 1 sharpening only renormalises: every entry is divided by
      the mass plus Epsilon, so a distribution comes back with mass
      1 / (1 + Epsilon) and its entries in the same proportions. */
  lemma {:induction false} SharpenUnitGamma(w: seq<real>)
    requires NonNegative(w)
    ensures PowerMass(w, 1) == Sum(w) && 0.0 <= Sum(w)
    ensures forall i :: 0 <= i < |w| ==> Sharpen(w, 1)[i] == w[i] / (Sum(w) + Epsilon)
    ensures Sum(Sharpen(w, 1)) == Sum(w) / (Sum(w) + Epsilon)
    ensures IsDistribution(w) ==> Sum(Sharpen(w, 1)) == 1.0 / (1.0 + Epsilon)
  {
    forall i | 0 <= i < |w|
      ensures Powers(w, 1)[i] == w[i]
    {
      assert Pow(w[i], 1) == w[i] * Pow(w[i], 0);
    }
    assert Powers(w, 1) == w;
  }
}
