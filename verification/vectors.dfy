/** Real vectors: the sums, dot products, powers and distributions that the
    memory bank's read and addressing operations are stated with. Tensor
    entries are exact `real`s; float32 rounding is not modelled. */
module Vectors {

  /** Sum of all entries (tf.math.reduce_sum over a vector). */
  function Sum(v: seq<real>): real
  {
    if |v| == 0 then 0.0 else v[0] + Sum(v[1..])
  }

  /** Inner product of two vectors of equal length. */
  function Dot(u: seq<real>, v: seq<real>): real
    requires |u| == |v|
  {
    if |u| == 0 then 0.0 else u[0] * v[0] + Dot(u[1..], v[1..])
  }

  /** x raised to a natural power. */
  function Pow(x: real, n: nat): real
  {
    if n == 0 then 1.0 else x * Pow(x, n - 1)
  }

  predicate NonNegative(v: seq<real>)
  {
    forall i :: 0 <= i < |v| ==> 0.0 <= v[i]
  }

  /** A weighting over rows: non-negative entries that sum to one. */
  predicate IsDistribution(v: seq<real>)
  {
    NonNegative(v) && Sum(v) == 1.0
  }

  /** `w` is 1 at index `i` and 0 everywhere else. */
  predicate IsOneHotAt(w: seq<real>, i: int)
  {
    0 <= i < |w| && forall k :: 0 <= k < |w| ==> w[k] == (if k == i then 1.0 else 0.0)
  }

  predicate IsAllOnes(v: seq<real>)
  {
    forall j :: 0 <= j < |v| ==> v[j] == 1.0
  }

  lemma {:induction false} SumAppend(a: seq<real>, b: seq<real>)
    ensures Sum(a + b) == Sum(a) + Sum(b)
  {
    if |a| > 0 {
      assert (a + b)[1..] == a[1..] + b;
      SumAppend(a[1..], b);
    } else {
      assert a + b == b;
    }
  }

  lemma {:induction false} SumNonNegative(v: seq<real>)
    requires NonNegative(v)
    ensures 0.0 <= Sum(v)
  {
    if |v| > 0 {
      SumNonNegative(v[1..]);
    }
  }

  /** A non-negative vector with positive mass has a positive entry. */
  lemma {:induction false} PositiveEntry(v: seq<real>) returns (i: nat)
    requires NonNegative(v) && 0.0 < Sum(v)
    ensures i < |v| && 0.0 < v[i]
  {
    if v[0] > 0.0 {
      i := 0;
    } else {
      var k := PositiveEntry(v[1..]);
      i := k + 1;
    }
  }

  /** Every entry of a non-negative vector is at most its sum. */
  lemma {:induction false} EntryAtMostSum(v: seq<real>, i: nat)
    requires NonNegative(v) && i < |v|
    ensures v[i] <= Sum(v)
  {
    if i == 0 {
      SumNonNegative(v[1..]);
    } else {
      EntryAtMostSum(v[1..], i - 1);
    }
  }

  /** Sums are linear: an entrywise combination a*u + b*v sums to a*Sum(u) + b*Sum(v). */
  lemma {:induction false} SumLinear(r: seq<real>, u: seq<real>, v: seq<real>, a: real, b: real)
    requires |r| == |u| == |v|
    requires forall i :: 0 <= i < |r| ==> r[i] == a * u[i] + b * v[i]
    ensures Sum(r) == a * Sum(u) + b * Sum(v)
  {
    if |r| > 0 {
      SumLinear(r[1..], u[1..], v[1..], a, b);
      SumLinearStep(r, u, v, a, b);
    }
  }

  /** The inductive step of SumLinear. */
  lemma {:induction false} SumLinearStep(r: seq<real>, u: seq<real>, v: seq<real>, a: real, b: real)
    requires 0 < |r| == |u| == |v|
    requires r[0] == a * u[0] + b * v[0]
    requires Sum(r[1..]) == a * Sum(u[1..]) + b * Sum(v[1..])
    ensures Sum(r) == a * Sum(u) + b * Sum(v)
  {
    var sr, su, sv := Sum(r[1..]), Sum(u[1..]), Sum(v[1..]);
    assert Sum(r) == r[0] + sr && Sum(u) == u[0] + su && Sum(v) == v[0] + sv;
    LinearStep2(a, b, u[0], v[0], su, sv, Sum(u), Sum(v));
  }

  /** One inductive step of SumLinear, on plain reals. */
  lemma {:induction false} LinearStep2(a: real, b: real, u0: real, v0: real, su: real, sv: real, tu: real, tv: real)
    requires tu == u0 + su && tv == v0 + sv
    ensures (a * u0 + b * v0) + (a * su + b * sv) == a * tu + b * tv
  {
    Distribute(a, u0, su);
    Distribute(b, v0, sv);
  }

  /** The entrywise combination a*u + b*v + c*x of three vectors. */
  function Combine3(a: real, u: seq<real>, b: real, v: seq<real>, c: real, x: seq<real>): (r: seq<real>)
    requires |u| == |v| == |x|
    ensures |r| == |u|
  {
    seq(|u|, i requires 0 <= i < |u| => a * u[i] + b * v[i] + c * x[i])
  }

  /** The mass of a combination is the same combination of the masses. */
  lemma {:induction false} SumCombine3(a: real, u: seq<real>, b: real, v: seq<real>, c: real, x: seq<real>)
    requires |u| == |v| == |x|
    ensures Sum(Combine3(a, u, b, v, c, x)) == a * Sum(u) + b * Sum(v) + c * Sum(x)
  {
    SumLinear3(Combine3(a, u, b, v, c, x), a, u, b, v, c, x);
  }

  /** Sums are linear in three vectors: r = a*u + b*v + c*x entrywise sums to
      a*Sum(u) + b*Sum(v) + c*Sum(x). */
  lemma {:induction false} SumLinear3(r: seq<real>, a: real, u: seq<real>, b: real, v: seq<real>, c: real, x: seq<real>)
    requires |r| == |u| == |v| == |x|
    requires forall i :: 0 <= i < |r| ==> r[i] == a * u[i] + b * v[i] + c * x[i]
    ensures Sum(r) == a * Sum(u) + b * Sum(v) + c * Sum(x)
  {
    if |r| > 0 {
      SumLinear3(r[1..], a, u[1..], b, v[1..], c, x[1..]);
      SumLinear3Step(r, a, u, b, v, c, x);
    }
  }

  /** The inductive step of SumLinear3: the claim for the tails and the
      first entries gives the claim for the whole vectors. */
  lemma {:induction false} SumLinear3Step(r: seq<real>, a: real, u: seq<real>, b: real, v: seq<real>, c: real, x: seq<real>)
    requires 0 < |r| == |u| == |v| == |x|
    requires r[0] == a * u[0] + b * v[0] + c * x[0]
    requires Sum(r[1..]) == a * Sum(u[1..]) + b * Sum(v[1..]) + c * Sum(x[1..])
    ensures Sum(r) == a * Sum(u) + b * Sum(v) + c * Sum(x)
  {
    var sr, su, sv, sx := Sum(r[1..]), Sum(u[1..]), Sum(v[1..]), Sum(x[1..]);
    assert Sum(r) == r[0] + sr && Sum(u) == u[0] + su && Sum(v) == v[0] + sv && Sum(x) == x[0] + sx;
    LinearStep3(a, b, c, u[0], v[0], x[0], su, sv, sx, Sum(u), Sum(v), Sum(x));
  }

  /** One inductive step of SumLinear3, on plain reals. */
  lemma {:induction false} LinearStep3(a: real, b: real, c: real, u0: real, v0: real, x0: real,
                                       su: real, sv: real, sx: real, tu: real, tv: real, tx: real)
    requires tu == u0 + su && tv == v0 + sv && tx == x0 + sx
    ensures (a * u0 + b * v0 + c * x0) + (a * su + b * sv + c * sx) == a * tu + b * tv + c * tx
  {
    Distribute(a, u0, su);
    Distribute(b, v0, sv);
    Distribute(c, x0, sx);
  }

  /** A combination of non-negative vectors with non-negative coefficients is non-negative. */
  lemma {:induction false} Combine3NonNegative(a: real, u: seq<real>, b: real, v: seq<real>, c: real, x: seq<real>)
    requires |u| == |v| == |x|
    requires 0.0 <= a && 0.0 <= b && 0.0 <= c
    requires NonNegative(u) && NonNegative(v) && NonNegative(x)
    ensures NonNegative(Combine3(a, u, b, v, c, x))
  {
    var r := Combine3(a, u, b, v, c, x);
    forall i | 0 <= i < |r|
      ensures 0.0 <= r[i]
    {
      MulMonotone(0.0, u[i], a);
      MulMonotone(0.0, v[i], b);
      MulMonotone(0.0, x[i], c);
    }
  }

  /** Dividing every entry by d divides the sum by d. */
  lemma {:induction false} SumDivided(r: seq<real>, u: seq<real>, d: real)
    requires d != 0.0 && |r| == |u|
    requires forall i :: 0 <= i < |r| ==> r[i] == u[i] / d
    ensures Sum(r) == Sum(u) / d
  {
    if |r| > 0 {
      SumDivided(r[1..], u[1..], d);
      DividedStep(u[0], Sum(u[1..]), Sum(u), d);
      assert Sum(r) == r[0] + Sum(r[1..]) && Sum(u) == u[0] + Sum(u[1..]);
    }
  }

  /** One inductive step of SumDivided, on plain reals. */
  lemma {:induction false} DividedStep(x: real, m: real, t: real, d: real)
    requires d != 0.0 && t == x + m
    ensures x / d + m / d == t / d
  {
  }

  /** A dot product against a vector of zeros vanishes. */
  lemma {:induction false} DotZeros(u: seq<real>, w: seq<real>)
    requires |u| == |w| && forall k :: 0 <= k < |w| ==> w[k] == 0.0
    ensures Dot(u, w) == 0.0
  {
    if |u| > 0 {
      DotZeros(u[1..], w[1..]);
    }
  }

  /** A dot product against a one-hot vector selects one entry. */
  lemma {:induction false} DotOneHot(u: seq<real>, w: seq<real>, i: nat)
    requires |u| == |w| && IsOneHotAt(w, i)
    ensures Dot(u, w) == u[i]
  {
    if i == 0 {
      DotZeros(u[1..], w[1..]);
    } else {
      assert IsOneHotAt(w[1..], i - 1);
      DotOneHot(u[1..], w[1..], i - 1);
    }
  }

  /** A dot product against non-negative weights lies between lo and hi times
      the weights' mass when every entry of u lies in [lo, hi]. */
  lemma {:induction false} DotBounds(u: seq<real>, w: seq<real>, lo: real, hi: real)
    requires |u| == |w| && NonNegative(w)
    requires forall k :: 0 <= k < |u| ==> lo <= u[k] <= hi
    ensures lo * Sum(w) <= Dot(u, w) <= hi * Sum(w)
  {
    DotLowerBound(u, w, lo);
    DotUpperBound(u, w, hi);
  }

  lemma {:induction false} DotLowerBound(u: seq<real>, w: seq<real>, lo: real)
    requires |u| == |w| && NonNegative(w)
    requires forall k :: 0 <= k < |u| ==> lo <= u[k]
    ensures lo * Sum(w) <= Dot(u, w)
  {
    if |u| > 0 {
      var d, m := Dot(u[1..], w[1..]), Sum(w[1..]);
      DotLowerBound(u[1..], w[1..], lo);
      LowerStep(lo, u[0], w[0], d, m);
      assert Sum(w) == w[0] + m;
      assert Dot(u, w) == u[0] * w[0] + d;
    }
  }

  lemma {:induction false} DotUpperBound(u: seq<real>, w: seq<real>, hi: real)
    requires |u| == |w| && NonNegative(w)
    requires forall k :: 0 <= k < |u| ==> u[k] <= hi
    ensures Dot(u, w) <= hi * Sum(w)
  {
    if |u| > 0 {
      var d, m := Dot(u[1..], w[1..]), Sum(w[1..]);
      DotUpperBound(u[1..], w[1..], hi);
      UpperStep(hi, u[0], w[0], d, m);
      assert Sum(w) == w[0] + m;
      assert Dot(u, w) == u[0] * w[0] + d;
    }
  }

  /** One inductive step of DotLowerBound, on plain reals. */
  lemma {:induction false} LowerStep(lo: real, x: real, wx: real, d: real, m: real)
    requires lo <= x && 0.0 <= wx && lo * m <= d
    ensures lo * (wx + m) <= x * wx + d
  {
    MulMonotone(lo, x, wx);
    Distribute(lo, wx, m);
    assert lo * wx == wx * lo && x * wx == wx * x;
  }

  /** One inductive step of DotUpperBound, on plain reals. */
  lemma {:induction false} UpperStep(hi: real, x: real, wx: real, d: real, m: real)
    requires x <= hi && 0.0 <= wx && d <= hi * m
    ensures x * wx + d <= hi * (wx + m)
  {
    MulMonotone(x, hi, wx);
    Distribute(hi, wx, m);
    assert hi * wx == wx * hi && x * wx == wx * x;
  }

  lemma {:induction false} Distribute(a: real, x: real, y: real)
    ensures a * (x + y) == a * x + a * y
  {
  }

  lemma {:induction false} MulMonotone(x: real, y: real, c: real)
    requires x <= y && 0.0 <= c
    ensures x * c <= y * c
  {
    assert (y - x) * c >= 0.0;
  }

  lemma {:induction false} ProductNonNegative(a: real, b: real)
    requires 0.0 <= a && 0.0 <= b
    ensures 0.0 <= a * b
  {
  }

  lemma {:induction false} PowNonNegative(x: real, n: nat)
    requires 0.0 <= x
    ensures 0.0 <= Pow(x, n)
  {
    if n > 0 {
      PowNonNegative(x, n - 1);
      MulMonotone(0.0, x, Pow(x, n - 1));
    }
  }

  lemma {:induction false} PowPositive(x: real, n: nat)
    requires 0.0 < x
    ensures 0.0 < Pow(x, n)
  {
    if n > 0 {
      PowPositive(x, n - 1);
    }
  }

  /** Raising to a natural power keeps the order of non-negative numbers. */
  lemma {:induction false} PowMonotone(x: real, y: real, n: nat)
    requires 0.0 <= x <= y
    ensures Pow(x, n) <= Pow(y, n)
  {
    if n > 0 {
      PowMonotone(x, y, n - 1);
      PowNonNegative(x, n - 1);
      MulMonotone(x, y, Pow(x, n - 1));
      MulMonotone(Pow(x, n - 1), Pow(y, n - 1), y);
    }
  }
}
