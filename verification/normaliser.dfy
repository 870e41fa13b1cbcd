/** Interval normalisation: each feature column rescaled by its trained bounds,
    (x - fmin) / (fmax - fmin), with no clamping. */
module IntervalNormalisation {
  import opened Tensors

  /** One feature value rescaled by the bounds of its column. */
  function NormaliseValue(x: real, lo: real, hi: real): (r: real)
    requires lo != hi
    ensures r * (hi - lo) + lo == x
  {
    (x - lo) / (hi - lo)
  }

  /** Bounds of matching width with no zero-width interval. */
  predicate ValidBounds(fmins: seq<real>, fmaxs: seq<real>) {
    |fmins| == |fmaxs| && forall c :: 0 <= c < |fmins| ==> fmins[c] != fmaxs[c]
  }

  /** One feature row rescaled column by column. */
  function NormaliseRow(v: seq<real>, fmins: seq<real>, fmaxs: seq<real>): (r: seq<real>)
    requires ValidBounds(fmins, fmaxs) && |v| == |fmins|
    ensures |r| == |v|
    ensures forall c :: 0 <= c < |v| ==> r[c] * (fmaxs[c] - fmins[c]) + fmins[c] == v[c]
  {
    seq(|v|, c requires 0 <= c < |v| => NormaliseValue(v[c], fmins[c], fmaxs[c]))
  }

  /** The whole feature matrix rescaled, the bounds broadcast over the rows. Undoing the
      affine map gives back every input value. */
  function Normalise(features: Matrix, fmins: seq<real>, fmaxs: seq<real>): (r: Matrix)
    requires ValidBounds(fmins, fmaxs) && IsMatrix(features, |features|, |fmins|)
    ensures IsMatrix(r, |features|, |fmins|)
    ensures forall i, c :: 0 <= i < |features| && 0 <= c < |fmins| ==>
              r[i][c] * (fmaxs[c] - fmins[c]) + fmins[c] == features[i][c]
  {
    seq(|features|, i requires 0 <= i < |features| => NormaliseRow(features[i], fmins, fmaxs))
  }

  lemma ScaleSign(a: real, width: real)
    requires width > 0.0
    ensures a > 0.0 <==> a * width > 0.0
    ensures a < 0.0 <==> a * width < 0.0
  {
    if a > 0.0 {
      assert a * width > 0.0;
    } else if a == 0.0 {
      assert a * width == 0.0;
    } else {
      assert (-a) * width > 0.0;
      assert a * width == -((-a) * width);
    }
  }

  /** x lies above or below lo exactly as its scaled offset r lies above or below 0. */
  lemma OffsetSign(x: real, lo: real, hi: real, r: real)
    requires lo < hi && x - lo == r * (hi - lo)
    ensures 0.0 <= r <==> lo <= x
    ensures 0.0 < r <==> lo < x
  {
    var width := hi - lo;
    assert x - lo == r * width;
    ScaleSign(r, width);
    if r < 0.0 {
      assert x - lo < 0.0;
    } else if r == 0.0 {
      assert x - lo == 0.0;
    } else {
      assert x - lo > 0.0;
    }
  }

  /** With fmin < fmax a value maps into [0, 1] exactly when it lies in [fmin, fmax]: values
      inside the trained interval stay in the unit interval, and values outside it are not
      clamped back into it. */
  lemma UnitIntervalExactlyForBounds(x: real, lo: real, hi: real)
    requires lo < hi
    ensures 0.0 <= NormaliseValue(x, lo, hi) <= 1.0 <==> lo <= x <= hi
    ensures x < lo ==> NormaliseValue(x, lo, hi) < 0.0
    ensures x > hi ==> NormaliseValue(x, lo, hi) > 1.0
  {
    var r := NormaliseValue(x, lo, hi);
    OffsetSign(x, lo, hi, r);
    OffsetSign(x, hi, hi + (hi - lo), r - 1.0);
  }

  /** With fmin < fmax the map is strictly increasing, and it sends fmin to 0 and fmax to 1. */
  lemma StrictlyIncreasing(x: real, y: real, lo: real, hi: real)
    requires lo < hi
    ensures x < y <==> NormaliseValue(x, lo, hi) < NormaliseValue(y, lo, hi)
    ensures NormaliseValue(lo, lo, hi) == 0.0
    ensures NormaliseValue(hi, lo, hi) == 1.0
  {
    var rx, ry := NormaliseValue(x, lo, hi), NormaliseValue(y, lo, hi);
    assert y - x == (ry - rx) * (hi - lo);
    ScaleSign(ry - rx, hi - lo);
    var r0, r1 := NormaliseValue(lo, lo, hi), NormaliseValue(hi, lo, hi);
    assert r0 * (hi - lo) == 0.0;
    ScaleSign(r0, hi - lo);
    assert (r1 - 1.0) * (hi - lo) == 0.0;
    ScaleSign(r1 - 1.0, hi - lo);
  }

  /** When the bounds of column c are a lower and an upper bound of that column over a
      dataset, as the empirical min and max are, every normalised value of the column lies
      in [0, 1]. */
  lemma EmpiricalBoundsGiveUnitInterval(features: Matrix, fmins: seq<real>, fmaxs: seq<real>, c: nat)
    requires ValidBounds(fmins, fmaxs) && IsMatrix(features, |features|, |fmins|)
    requires c < |fmins| && fmins[c] < fmaxs[c]
    requires forall i :: 0 <= i < |features| ==> fmins[c] <= features[i][c] <= fmaxs[c]
    ensures forall i :: 0 <= i < |features| ==> 0.0 <= Normalise(features, fmins, fmaxs)[i][c] <= 1.0
  {
    var r := Normalise(features, fmins, fmaxs);
    forall i | 0 <= i < |features|
      ensures 0.0 <= r[i][c] <= 1.0
    {
      assert r[i][c] == NormaliseValue(features[i][c], fmins[c], fmaxs[c]);
      UnitIntervalExactlyForBounds(features[i][c], fmins[c], fmaxs[c]);
    }
  }
}
