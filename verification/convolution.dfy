/** The circular convolution `_convolve` used by the shift step of NTM
    addressing: the weighting is padded with one wrapped-around entry on each
    side and a 3-tap window (a cross-correlation with no padding, as
    tf.nn.conv1d with padding 'VALID' computes it) slides over the result.
    Shift weight s[0] belongs to offset -1, s[1] to 0 and s[2] to +1. */
module Convolution {
  import opened Vectors

  datatype ShapeError = ShiftLengthNotThree(length: nat)

  datatype Result<T> = Ok(value: T) | Err(error: ShapeError)

  /** The padded input [w[n-1]] ++ w ++ [w[0]] (tf.concat of w[-1:], w, w[:1]). */
  function Pad(w: seq<real>): (t: seq<real>)
    requires |w| >= 1
    ensures |t| == |w| + 2
  {
    w[|w| - 1..] + w + w[..1]
  }

  /** tf.nn.conv1d with a 3-entry kernel, stride 1 and no padding: one output
      per complete window of three consecutive inputs. */
  function Correlate3(t: seq<real>, s: seq<real>): (c: seq<real>)
    requires |s| == 3 && |t| >= 2
    ensures |c| == |t| - 2
  {
    seq(|t| - 2, i requires 0 <= i < |t| - 2 => t[i] * s[0] + t[i + 1] * s[1] + t[i + 2] * s[2])
  }

  /** `_convolve`: the shift vector must have exactly three entries (any other
      length fails the source's assertion); the result then has the length of `w`. */
  function Convolve(w: seq<real>, s: seq<real>): (r: Result<seq<real>>)
    requires |w| >= 1
    ensures r.Err? <==> |s| != 3
    ensures r.Err? ==> r.error == ShiftLengthNotThree(|s|)
    ensures r.Ok? ==> |r.value| == |w|
  {
    if |s| != 3 then Err(ShiftLengthNotThree(|s|)) else Ok(Correlate3(Pad(w), s))
  }

  /** Entry i of the result blends w's neighbours (i-1) mod n, i and (i+1) mod n
      with the weights of offsets -1, 0 and +1: a circular convolution. */
  lemma {:induction false} ConvolveIsCircular(w: seq<real>, s: seq<real>)
    requires |w| >= 1 && |s| == 3
    ensures forall i :: 0 <= i < |w| ==>
      Convolve(w, s).value[i] == w[(i - 1) % |w|] * s[0] + w[i] * s[1] + w[(i + 1) % |w|] * s[2]
  {
    var r := Convolve(w, s).value;
    forall i | 0 <= i < |w|
      ensures r[i] == w[(i - 1) % |w|] * s[0] + w[i] * s[1] + w[(i + 1) % |w|] * s[2]
    {
      PadWindow(w, i);
    }
  }

  /** Window i of the padded input holds w's entries at (i-1) mod n, i and (i+1) mod n. */
  lemma {:induction false} PadWindow(w: seq<real>, i: nat)
    requires i < |w|
    ensures Pad(w)[i] == w[(i - 1) % |w|] && Pad(w)[i + 1] == w[i] && Pad(w)[i + 2] == w[(i + 1) % |w|]
  {
    PadEntries(w);
    NeighbourIndices(|w|, i);
  }

  /** The padded input is w[n-1], then w, then w[0]. */
  lemma {:induction false} PadEntries(w: seq<real>)
    requires |w| >= 1
    ensures Pad(w)[0] == w[|w| - 1] && Pad(w)[|w| + 1] == w[0]
    ensures forall k :: 1 <= k <= |w| ==> Pad(w)[k] == w[k - 1]
  {
  }

  /** The circular neighbours of index i among n. */
  lemma {:induction false} NeighbourIndices(n: nat, i: nat)
    requires i < n
    ensures (i - 1) % n == (if i == 0 then n - 1 else i - 1)
    ensures (i + 1) % n == (if i + 1 == n then 0 else i + 1)
  {
    PreviousIndex(n, i);
    NextIndex(n, i);
  }

  lemma {:induction false} PreviousIndex(n: nat, i: nat)
    requires i < n
    ensures (i - 1) % n == (if i == 0 then n - 1 else i - 1)
  {
    if i == 0 {
      assert (i - 1) % n == n - 1;
    } else {
      assert (i - 1) % n == i - 1;
    }
  }

  lemma {:induction false} NextIndex(n: nat, i: nat)
    requires i < n
    ensures (i + 1) % n == (if i + 1 == n then 0 else i + 1)
  {
    if i + 1 < n {
      assert (i + 1) % n == i + 1;
    } else {
      assert (i + 1) % n == 0;
    }
  }

  /** Rotation right by one place: entry i moves to i+1, the last entry wraps to the front. */
  function RotateRight(w: seq<real>): (r: seq<real>)
    requires |w| >= 1
    ensures |r| == |w|
  {
    w[|w| - 1..] + w[..|w| - 1]
  }

  /** Rotation left by one place: entry i moves to i-1, the first entry wraps to the back. */
  function RotateLeft(w: seq<real>): (r: seq<real>)
    requires |w| >= 1
    ensures |r| == |w|
  {
    w[1..] + w[..1]
  }

  /** Rotations only reorder the entries, so they keep the total mass. */
  lemma {:induction false} RotationsKeepSum(w: seq<real>)
    requires |w| >= 1
    ensures Sum(RotateRight(w)) == Sum(w) && Sum(RotateLeft(w)) == Sum(w)
  {
    SwapHalvesKeepsSum(w, |w| - 1);
    SwapHalvesKeepsSum(w, 1);
  }

  /** Exchanging the two parts of w split at k leaves the sum unchanged. */
  lemma {:induction false} SwapHalvesKeepsSum(w: seq<real>, k: nat)
    requires k <= |w|
    ensures Sum(w[k..] + w[..k]) == Sum(w)
  {
    SumAppend(w[k..], w[..k]);
    SumAppend(w[..k], w[k..]);
    assert w[..k] + w[k..] == w;
  }

  /** The kernel [0, 1, 0] leaves the weighting unchanged. */
  lemma {:induction false} ConvolveIdentity(w: seq<real>)
    requires |w| >= 1
    ensures Convolve(w, [0.0, 1.0, 0.0]) == Ok(w)
  {
    var r := Convolve(w, [0.0, 1.0, 0.0]).value;
    ConvolveIsBlendOfRotations(w, [0.0, 1.0, 0.0]);
    assert r == w;
  }

  /** The kernel [1, 0, 0] rotates the weighting right by one place. */
  lemma {:induction false} ConvolveRotatesRight(w: seq<real>)
    requires |w| >= 1
    ensures Convolve(w, [1.0, 0.0, 0.0]) == Ok(RotateRight(w))
  {
    var r := Convolve(w, [1.0, 0.0, 0.0]).value;
    ConvolveIsBlendOfRotations(w, [1.0, 0.0, 0.0]);
    assert r == RotateRight(w);
  }

  /** The kernel [0, 0, 1] rotates the weighting left by one place. */
  lemma {:induction false} ConvolveRotatesLeft(w: seq<real>)
    requires |w| >= 1
    ensures Convolve(w, [0.0, 0.0, 1.0]) == Ok(RotateLeft(w))
  {
    var r := Convolve(w, [0.0, 0.0, 1.0]).value;
    ConvolveIsBlendOfRotations(w, [0.0, 0.0, 1.0]);
    assert r == RotateLeft(w);
  }

  /** The result is the blend s[0]*RotateRight(w) + s[1]*w + s[2]*RotateLeft(w):
      the padded input read from offset 0 is w rotated right, from offset 2 w
      rotated left. */
  lemma {:induction false} ConvolveIsBlendOfRotations(w: seq<real>, s: seq<real>)
    requires |w| >= 1 && |s| == 3
    ensures Convolve(w, s).value == Combine3(s[0], RotateRight(w), s[1], w, s[2], RotateLeft(w))
  {
    var n, t, r := |w|, Pad(w), Convolve(w, s).value;
    var blend := Combine3(s[0], RotateRight(w), s[1], w, s[2], RotateLeft(w));
    assert t[..n] == RotateRight(w);
    assert t[1..n + 1] == w;
    assert t[2..] == RotateLeft(w);
    forall i | 0 <= i < n
      ensures r[i] == blend[i]
    {
      assert t[i] == t[..n][i] && t[i + 1] == t[1..n + 1][i] && t[i + 2] == t[2..][i];
    }
  }

  /** The result's mass is Sum(w) * Sum(s), and with non-negative w and s the
      result is non-negative; a distribution shifted by a distribution stays one. */
  lemma {:induction false} ConvolvePreservesMass(w: seq<real>, s: seq<real>)
    requires |w| >= 1
    ensures Convolve(w, s).Ok? ==> Sum(Convolve(w, s).value) == Sum(w) * Sum(s)
    ensures Convolve(w, s).Ok? && NonNegative(w) && NonNegative(s) ==> NonNegative(Convolve(w, s).value)
  {
    if |s| == 3 {
      ConvolveIsBlendOfRotations(w, s);
      BlendMass(w, s);
      if NonNegative(w) && NonNegative(s) {
        BlendNonNegative(w, s);
      }
    }
  }

  /** Non-negative rotations blended with non-negative weights stay non-negative. */
  lemma {:induction false} BlendNonNegative(w: seq<real>, s: seq<real>)
    requires |w| >= 1 && |s| == 3
    requires NonNegative(w) && NonNegative(s)
    ensures NonNegative(Combine3(s[0], RotateRight(w), s[1], w, s[2], RotateLeft(w)))
  {
    RotationsKeepNonNegative(w);
    Combine3NonNegative(s[0], RotateRight(w), s[1], w, s[2], RotateLeft(w));
  }

  /** Each rotation has the mass of w, so the blend has mass Sum(w) * Sum(s). */
  lemma {:induction false} BlendMass(w: seq<real>, s: seq<real>)
    requires |w| >= 1 && |s| == 3
    ensures Sum(Combine3(s[0], RotateRight(w), s[1], w, s[2], RotateLeft(w))) == Sum(w) * Sum(s)
  {
    RotationsKeepSum(w);
    SumCombine3(s[0], RotateRight(w), s[1], w, s[2], RotateLeft(w));
    SumOfThree(s);
    ScaleByTotal(Sum(w), s[0], s[1], s[2], Sum(s));
  }

  lemma {:induction false} ScaleByTotal(m: real, a: real, b: real, c: real, t: real)
    requires t == a + b + c
    ensures a * m + b * m + c * m == m * t
  {
  }

  lemma {:induction false} RotationsKeepNonNegative(w: seq<real>)
    requires |w| >= 1 && NonNegative(w)
    ensures NonNegative(RotateRight(w)) && NonNegative(RotateLeft(w))
  {
    var n := |w|;
    forall i | 0 <= i < n
      ensures 0.0 <= RotateRight(w)[i] && 0.0 <= RotateLeft(w)[i]
    {
      assert RotateRight(w)[i] == (if i == 0 then w[n - 1] else w[i - 1]);
      assert RotateLeft(w)[i] == (if i == n - 1 then w[0] else w[i + 1]);
    }
  }

  lemma {:induction false} SumOfThree(s: seq<real>)
    requires |s| == 3
    ensures Sum(s) == s[0] + s[1] + s[2]
  {
    assert Sum(s[2..]) == s[2] + Sum(s[3..]);
    assert Sum(s[1..]) == s[1] + Sum(s[2..]);
  }
}
