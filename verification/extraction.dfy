/** extract_features: flatten the patches of a batch into rows, encode them, reshape back to
    (example, frequency position, time position, centroid) and summarise; and the
    per-example reference it is proved equal to. */
module FeatureExtraction {
  import opened Results
  import opened Indexing
  import opened Tensors
  import opened Encoder
  import opened Pooling

  /** Spectrogram extent (frequency bins x time frames) and patch extent (height in
      frequency bins x width in time frames). */
  datatype Geometry = Geometry(freqBins: nat, timeFrames: nat, height: nat, width: nat) {

    /** The strided view has no negative extent. */
    predicate ViewExists() {
      height <= freqBins + 1 && width <= timeFrames + 1
    }

    /** Number of patch offsets along frequency, F - h + 1. */
    function FreqPositions(): nat
      requires ViewExists()
    {
      freqBins - height + 1
    }

    /** Number of patch offsets along time, T - w + 1. */
    function TimePositions(): nat
      requires ViewExists()
    {
      timeFrames - width + 1
    }

    /** Entries in one flattened patch. */
    function Pixels(): nat {
      height * width
    }

    /** Every example's features can be pooled: some frequency position, and quadrant
        slices of positive width. */
    predicate Poolable()
      requires ViewExists()
    {
      FreqPositions() > 0 && TimePositions() >= TimeSlices
    }
  }

  /** The patch of spectrogram s at frequency offset f and time offset t, flattened
      row-major into h*w entries. */
  function PatchRow(s: Matrix, g: Geometry, f: nat, t: nat): (row: seq<real>)
    requires g.ViewExists() && IsMatrix(s, g.freqBins, g.timeFrames)
    requires f < g.FreqPositions() && t < g.TimePositions()
    ensures |row| == g.Pixels()
  {
    seq(g.Pixels(), c requires 0 <= c < g.Pixels() =>
      Linear2Onto(c, g.height, g.width);
      s[f + c / g.width][t + c % g.width])
  }

  /** Pixel (i, j) of patch (f, t) sits at column i*w + j of its row and is spectrogram
      cell [f + i][t + j]. */
  lemma PatchRowPixel(s: Matrix, g: Geometry, f: nat, t: nat, i: nat, j: nat)
    requires g.ViewExists() && IsMatrix(s, g.freqBins, g.timeFrames)
    requires f < g.FreqPositions() && t < g.TimePositions()
    requires i < g.height && j < g.width
    ensures 0 <= Linear2(i, j, g.width) < g.Pixels()
    ensures PatchRow(s, g, f, t)[Linear2(i, j, g.width)] == s[f + i][t + j]
  {
    Linear2RoundTrip(i, j, g.height, g.width);
  }

  /** Row r of the flattened batch: the patch whose (example, frequency offset, time offset)
      has row-major index r. */
  function FlattenedPatch(batch: Tensor3, g: Geometry, r: nat): (row: seq<real>)
    requires g.ViewExists() && IsTensor3(batch, |batch|, g.freqBins, g.timeFrames)
    requires r < |batch| * g.FreqPositions() * g.TimePositions()
    ensures |row| == g.Pixels()
  {
    var fp, tp := g.FreqPositions(), g.TimePositions();
    PositiveFactors(|batch|, fp, tp);
    Linear3Onto(r, |batch|, fp, tp);
    PatchRow(batch[Outer3(r, fp, tp)], g, Middle3(r, fp, tp), Inner3(r, tp))
  }

  /** transpose(0, 1, 3, 2, 4).reshape(-1, h*w) of the patch view of a batch: row r holds
      the patch whose (example, frequency offset, time offset) has row-major index r. */
  function FlattenBatch(batch: Tensor3, g: Geometry): (rows: Matrix)
    requires g.ViewExists() && IsTensor3(batch, |batch|, g.freqBins, g.timeFrames)
    ensures IsMatrix(rows, |batch| * g.FreqPositions() * g.TimePositions(), g.Pixels())
    ensures forall r :: 0 <= r < |rows| ==> rows[r] == FlattenedPatch(batch, g, r)
  {
    var count := |batch| * g.FreqPositions() * g.TimePositions();
    seq(count, r requires 0 <= r < count => FlattenedPatch(batch, g, r))
  }

  /** Patch (e, f, t) is row (e*(F-h+1) + f)*(T-w+1) + t of the flattened batch. */
  lemma FlattenRow(batch: Tensor3, g: Geometry, e: nat, f: nat, t: nat)
    requires g.ViewExists() && IsTensor3(batch, |batch|, g.freqBins, g.timeFrames)
    requires e < |batch| && f < g.FreqPositions() && t < g.TimePositions()
    ensures 0 <= Linear3(e, f, t, g.FreqPositions(), g.TimePositions()) < |FlattenBatch(batch, g)|
    ensures FlattenBatch(batch, g)[Linear3(e, f, t, g.FreqPositions(), g.TimePositions())]
            == PatchRow(batch[e], g, f, t)
  {
    var fp, tp := g.FreqPositions(), g.TimePositions();
    var r := Linear3(e, f, t, fp, tp);
    Linear3RoundTrip(e, f, t, |batch|, fp, tp);
    assert FlattenBatch(batch, g)[r] == FlattenedPatch(batch, g, r);
  }

  /** Patch (e, f, t) goes to row (e*(F-h+1) + f)*(T-w+1) + t and its pixel (i, j) to column
      i*w + j, holding spectrogram cell [e][f + i][t + j]. */
  lemma FlattenIndex(batch: Tensor3, g: Geometry, e: nat, f: nat, i: nat, t: nat, j: nat)
    requires g.ViewExists() && IsTensor3(batch, |batch|, g.freqBins, g.timeFrames)
    requires e < |batch| && f < g.FreqPositions() && i < g.height && t < g.TimePositions() && j < g.width
    ensures 0 <= Linear3(e, f, t, g.FreqPositions(), g.TimePositions()) < |FlattenBatch(batch, g)|
    ensures 0 <= Linear2(i, j, g.width) < g.Pixels()
    ensures FlattenBatch(batch, g)[Linear3(e, f, t, g.FreqPositions(), g.TimePositions())][Linear2(i, j, g.width)]
            == batch[e][f + i][t + j]
  {
    FlattenRow(batch, g, e, f, t);
    PatchRowPixel(batch[e], g, f, t, i, j);
  }

  /** Encoded row of patch (e, f, t) in the flat matrix. */
  function FlatRow(flat: Matrix, n: nat, fp: nat, tp: nat, centroids: nat, e: nat, f: nat, t: nat): (r: seq<real>)
    requires IsMatrix(flat, n * fp * tp, centroids) && e < n && f < fp && t < tp
    ensures |r| == centroids
    ensures 0 <= Linear3(e, f, t, fp, tp) < |flat| && r == flat[Linear3(e, f, t, fp, tp)]
  {
    Linear3RoundTrip(e, f, t, n, fp, tp);
    flat[Linear3(e, f, t, fp, tp)]
  }

  /** The encoded rows of example e at frequency offset f, one per time offset. */
  function UnflattenRow(flat: Matrix, n: nat, fp: nat, tp: nat, centroids: nat, e: nat, f: nat): (r: Matrix)
    requires IsMatrix(flat, n * fp * tp, centroids) && e < n && f < fp
    ensures IsMatrix(r, tp, centroids)
    ensures forall t :: 0 <= t < tp ==> r[t] == FlatRow(flat, n, fp, tp, centroids, e, f, t)
  {
    seq(tp, t requires 0 <= t < tp => FlatRow(flat, n, fp, tp, centroids, e, f, t))
  }

  /** The encoded rows of example e, laid out [f][t]. */
  function UnflattenExample(flat: Matrix, n: nat, fp: nat, tp: nat, centroids: nat, e: nat): (r: Tensor3)
    requires IsMatrix(flat, n * fp * tp, centroids) && e < n
    ensures IsTensor3(r, fp, tp, centroids)
    ensures forall f :: 0 <= f < fp ==> r[f] == UnflattenRow(flat, n, fp, tp, centroids, e, f)
  {
    seq(fp, f requires 0 <= f < fp => UnflattenRow(flat, n, fp, tp, centroids, e, f))
  }

  /** reshape(n, F-h+1, T-w+1, K) of the encoded rows: entry (e, f, t) is row
      (e*(F-h+1) + f)*(T-w+1) + t. */
  function Unflatten(flat: Matrix, n: nat, fp: nat, tp: nat, centroids: nat): (r: Tensor4)
    requires IsMatrix(flat, n * fp * tp, centroids)
    ensures IsTensor4(r, n, fp, tp, centroids)
    ensures forall e :: 0 <= e < n ==> r[e] == UnflattenExample(flat, n, fp, tp, centroids, e)
  {
    seq(n, e requires 0 <= e < n => UnflattenExample(flat, n, fp, tp, centroids, e))
  }

  /** The encoded features of patch (f, t) of spectrogram s. */
  function PatchFeatures(s: Matrix, g: Geometry, d: Dictionary, threshold: Option<real>, f: nat, t: nat): (r: seq<real>)
    requires g.ViewExists() && IsMatrix(s, g.freqBins, g.timeFrames) && Fits(d, g.Pixels())
    requires f < g.FreqPositions() && t < g.TimePositions()
    ensures |r| == d.centroids
  {
    EncodeRow(PatchRow(s, g, f, t), d, threshold)
  }

  /** The feature map of one spectrogram, [f][t][k]: every patch encoded on its own. */
  function FeatureMap(s: Matrix, g: Geometry, d: Dictionary, threshold: Option<real>): (r: Tensor3)
    requires g.ViewExists() && IsMatrix(s, g.freqBins, g.timeFrames) && Fits(d, g.Pixels())
    ensures IsTensor3(r, g.FreqPositions(), g.TimePositions(), d.centroids)
    ensures forall f, t :: 0 <= f < g.FreqPositions() && 0 <= t < g.TimePositions() ==>
              r[f][t] == PatchFeatures(s, g, d, threshold, f, t)
  {
    seq(g.FreqPositions(), f requires 0 <= f < g.FreqPositions() =>
      seq(g.TimePositions(), t requires 0 <= t < g.TimePositions() => PatchFeatures(s, g, d, threshold, f, t)))
  }

  /** The pooled feature vector of one spectrogram, computed on its own. */
  function ExampleFeatures(s: Matrix, g: Geometry, d: Dictionary, threshold: Option<real>): (r: seq<real>)
    requires g.ViewExists() && g.Poolable() && IsMatrix(s, g.freqBins, g.timeFrames) && Fits(d, g.Pixels())
    ensures |r| == (TimeSlices + 1) * d.centroids
  {
    Pool(FeatureMap(s, g, d, threshold), g.FreqPositions(), g.TimePositions(), d.centroids)
  }

  /** Flattening a batch, encoding all rows at once and reshaping back gives, at (e, f, t),
      the encoding of patch (f, t) of example e alone: the reshape recovers the indexing. */
  lemma ReshapeRecoversPatches(batch: Tensor3, g: Geometry, d: Dictionary, threshold: Option<real>)
    requires g.ViewExists() && IsTensor3(batch, |batch|, g.freqBins, g.timeFrames) && Fits(d, g.Pixels())
    ensures forall e :: 0 <= e < |batch| ==>
      Unflatten(EncodeRows(FlattenBatch(batch, g), d, threshold), |batch|, g.FreqPositions(), g.TimePositions(), d.centroids)[e]
      == FeatureMap(batch[e], g, d, threshold)
  {
    var fp, tp := g.FreqPositions(), g.TimePositions();
    var rows := FlattenBatch(batch, g);
    var enc := EncodeRows(rows, d, threshold);
    var feats := Unflatten(enc, |batch|, fp, tp, d.centroids);
    forall e | 0 <= e < |batch|
      ensures feats[e] == FeatureMap(batch[e], g, d, threshold)
    {
      var m := FeatureMap(batch[e], g, d, threshold);
      forall f, t | 0 <= f < fp && 0 <= t < tp
        ensures feats[e][f][t] == m[f][t]
      {
        FlattenRow(batch, g, e, f, t);
      }
      assert forall f :: 0 <= f < fp ==> feats[e][f] == m[f];
    }
  }

  /** extract_features on one batch. It fails when the patch has no pixels (the row width of
      the flattening reshape is 0) or when pooling meets an empty axis; otherwise row e is the
      pooled feature vector of example e computed on its own, whatever else is in the batch. */
  function ExtractFeatures(batch: Tensor3, g: Geometry, d: Dictionary, threshold: Option<real>): (r: Result<Matrix>)
    requires g.ViewExists() && IsTensor3(batch, |batch|, g.freqBins, g.timeFrames) && Fits(d, g.Pixels())
    ensures r.Failure? <==> g.Pixels() == 0 || !g.Poolable()
    ensures r.Failure? ==> r.error == (if g.Pixels() == 0 then AmbiguousReshape else EmptyReduction)
    ensures r.Success? ==> IsMatrix(r.value, |batch|, (TimeSlices + 1) * d.centroids)
    ensures r.Success? ==> forall e :: 0 <= e < |batch| ==> r.value[e] == ExampleFeatures(batch[e], g, d, threshold)
  {
    if g.Pixels() == 0 then
      Failure(AmbiguousReshape)
    else
      var fp, tp := g.FreqPositions(), g.TimePositions();
      var rows := FlattenBatch(batch, g);
      var enc := EncodeRows(rows, d, threshold);
      var feats := Unflatten(enc, |batch|, fp, tp, d.centroids);
      ReshapeRecoversPatches(batch, g, d, threshold);
      SummariseBatch(feats, |batch|, fp, tp, d.centroids)
  }

  /** Entry (f, t, k) of the feature map is the raw activation of patch (f, t) for centroid k
      without a threshold, and max(raw - t, 0) with threshold t. */
  lemma FeatureMapThreshold(s: Matrix, g: Geometry, d: Dictionary, threshold: Option<real>, f: nat, t: nat, k: nat)
    requires g.ViewExists() && IsMatrix(s, g.freqBins, g.timeFrames) && Fits(d, g.Pixels())
    requires f < g.FreqPositions() && t < g.TimePositions() && k < d.centroids
    ensures threshold.None? ==>
              FeatureMap(s, g, d, threshold)[f][t][k] == Activation(PatchRow(s, g, f, t), d, k)
    ensures threshold.Some? ==>
              var raw := Activation(PatchRow(s, g, f, t), d, k);
              var v := FeatureMap(s, g, d, threshold)[f][t][k];
              && v >= 0.0
              && (v == 0.0 <==> raw <= threshold.value)
              && (raw >= threshold.value ==> v == raw - threshold.value)
  {
    var raw := Activation(PatchRow(s, g, f, t), d, k);
    assert FeatureMap(s, g, d, threshold)[f][t][k] == Activate(raw, threshold);
    if threshold.Some? {
      ThresholdSemantics(raw, raw, threshold.value);
    }
  }

  /** With a threshold, every entry of the pooled feature vector is at least 0. */
  lemma ThresholdedFeaturesNonNegative(s: Matrix, g: Geometry, d: Dictionary, t: real, idx: nat)
    requires g.ViewExists() && g.Poolable() && IsMatrix(s, g.freqBins, g.timeFrames) && Fits(d, g.Pixels())
    requires idx < (TimeSlices + 1) * d.centroids
    ensures ExampleFeatures(s, g, d, Some(t))[idx] >= 0.0
  {
    var fp, tp, k := g.FreqPositions(), g.TimePositions(), d.centroids;
    Linear2Onto(idx, TimeSlices + 1, k);
    var j, c := idx / k, idx % k;
    var feat := FeatureMap(s, g, d, Some(t));
    PoolLayout(feat, fp, tp, k, j, c);
    var v := ExampleFeatures(s, g, d, Some(t))[idx];
    var f, tt :| 0 <= f < fp && PartStart(j, tp) <= tt < PartEnd(j, tp) && feat[f][tt][c] == v;
    FeatureMapThreshold(s, g, d, Some(t), f, tt, c);
  }

  /** Extracting two batches separately gives the same rows as extracting them as one:
      the batch boundaries do not change any example's features. */
  lemma BatchSplitInvariance(a: Tensor3, b: Tensor3, g: Geometry, d: Dictionary, threshold: Option<real>)
    requires g.ViewExists() && Fits(d, g.Pixels())
    requires IsTensor3(a, |a|, g.freqBins, g.timeFrames) && IsTensor3(b, |b|, g.freqBins, g.timeFrames)
    ensures IsTensor3(a + b, |a + b|, g.freqBins, g.timeFrames)
    ensures ExtractFeatures(a + b, g, d, threshold).Success? <==> ExtractFeatures(a, g, d, threshold).Success?
    ensures ExtractFeatures(a + b, g, d, threshold).Success? ==>
              ExtractFeatures(a + b, g, d, threshold).value
              == ExtractFeatures(a, g, d, threshold).value + ExtractFeatures(b, g, d, threshold).value
  {
    var ab := a + b;
    assert forall e :: 0 <= e < |ab| ==> ab[e] == (if e < |a| then a[e] else b[e - |a|]);
    var rab, ra, rb := ExtractFeatures(ab, g, d, threshold), ExtractFeatures(a, g, d, threshold),
                       ExtractFeatures(b, g, d, threshold);
    if rab.Success? {
      assert rab.value == ra.value + rb.value;
    }
  }
}
