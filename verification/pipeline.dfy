/** One pass of the feature pipeline over a spectrogram tensor: build the patch view, run the
    batch loop, normalise the feature matrix. The training and the test pass are this same
    computation on different spectrograms. */
module Pipeline {
  import opened Results
  import opened Indexing
  import opened Tensors
  import opened PatchViews
  import opened Encoder
  import opened Pooling
  import opened FeatureExtraction
  import opened Batching
  import opened IntervalNormalisation

  /** The strided view and the flattening reshape agree: the buffer cell the view reads for
      (e, f, i, t, j) is the entry the flattened batch holds at row (e*(F-h+1) + f)*(T-w+1) + t,
      column i*w + j. */
  lemma ViewMatchesFlatten(x: Tensor3, g: Geometry, e: nat, f: nat, i: nat, t: nat, j: nat)
    requires IsTensor3(x, |x|, g.freqBins, g.timeFrames) && g.ViewExists()
    requires e < |x| && f < g.FreqPositions() && i < g.height && t < g.TimePositions() && j < g.width
    ensures MakePatchView(|x|, g.freqBins, g.timeFrames, g.height, g.width).Success?
    ensures 0 <= Linear3(e, f, t, g.FreqPositions(), g.TimePositions()) < |FlattenBatch(x, g)|
    ensures 0 <= Linear2(i, j, g.width) < g.Pixels()
    ensures 0 <= Offset(MakePatchView(|x|, g.freqBins, g.timeFrames, g.height, g.width).value, e, f, i, t, j)
               < |RowMajor3(x, |x|, g.freqBins, g.timeFrames)|
    ensures RowMajor3(x, |x|, g.freqBins, g.timeFrames)[
              Offset(MakePatchView(|x|, g.freqBins, g.timeFrames, g.height, g.width).value, e, f, i, t, j)]
            == FlattenBatch(x, g)[Linear3(e, f, t, g.FreqPositions(), g.TimePositions())][Linear2(i, j, g.width)]
  {
    StridedReadIsWindow(x, |x|, g.freqBins, g.timeFrames, g.height, g.width, e, f, i, t, j);
    FlattenIndex(x, g, e, f, i, t, j);
  }

  /** The error a failing pass aborts with: the view is built before any batch is flattened,
      and a batch is flattened before it is pooled. */
  function FirstError(g: Geometry): PipelineError {
    if !g.ViewExists() then NegativeDimension
    else if g.Pixels() == 0 then AmbiguousReshape
    else EmptyReduction
  }

  /** Feature extraction and interval normalisation for one pass over spectrograms x
      (examples x F x T). It fails when the patch view would have a negative extent, and,
      when there is at least one example, when the patch has no pixels or pooling meets an
      empty axis. Otherwise row e is the pooled feature vector of example e, rescaled by the
      trained bounds. */
  method RunPass(x: Tensor3, g: Geometry, d: Dictionary, threshold: Option<real>,
                 fmins: seq<real>, fmaxs: seq<real>)
    returns (r: Result<Matrix>)
    requires IsTensor3(x, |x|, g.freqBins, g.timeFrames) && Fits(d, g.Pixels())
    requires ValidBounds(fmins, fmaxs) && |fmins| == (TimeSlices + 1) * d.centroids
    ensures r.Failure? <==> !g.ViewExists() || (|x| > 0 && (g.Pixels() == 0 || !g.Poolable()))
    ensures r.Failure? ==> r.error == FirstError(g)
    ensures r.Success? ==> IsMatrix(r.value, |x|, (TimeSlices + 1) * d.centroids)
    ensures r.Success? ==> forall e :: 0 <= e < |x| ==>
              r.value[e] == NormaliseRow(ExampleFeatures(x[e], g, d, threshold), fmins, fmaxs)
  {
    var view := MakePatchView(|x|, g.freqBins, g.timeFrames, g.height, g.width);
    if view.Failure? {
      return Failure(view.error);
    }
    var features := RunBatches(x, g, d, threshold, PassBatchSize);
    if features.Failure? {
      return Failure(features.error);
    }
    r := Success(Normalise(features.value, fmins, fmaxs));
  }
}
