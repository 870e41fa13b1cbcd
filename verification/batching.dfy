/** The batch orchestrator: ceil(N / B) batches of B consecutive examples (the last one
    possibly partial), each encoded and pooled, its rows written into a pre-allocated
    feature matrix at the batch's row offset. */
module Batching {
  import opened Results
  import opened Indexing
  import opened Tensors
  import opened Encoder
  import opened Pooling
  import opened FeatureExtraction

  /** Examples per batch in the training and test passes. */
  const PassBatchSize: nat := 100

  /** Number of batches, ceil(n / batchSize): enough to hold n rows, and no more. */
  function NumBatches(n: nat, batchSize: nat): (r: nat)
    requires batchSize > 0
    ensures r * batchSize >= n
    ensures r == 0 || (r - 1) * batchSize < n
    ensures r == 0 <==> n == 0
  {
    var r := (n + batchSize - 1) / batchSize;
    assert n + batchSize - 1 == r * batchSize + (n + batchSize - 1) % batchSize;
    assert (r - 1) * batchSize == r * batchSize - batchSize;
    r
  }

  /** First row of batch b. */
  function BatchStart(b: nat, batchSize: nat): nat {
    b * batchSize
  }

  /** One past the last row of batch b: the slice [b*B, (b+1)*B) clipped to the n rows. */
  function BatchEnd(b: nat, batchSize: nat, n: nat): nat {
    if (b + 1) * batchSize < n then (b + 1) * batchSize else n
  }

  /** Row r lies in batch r / B, which is one of the ceil(n / B) batches. */
  lemma RowBatch(n: nat, batchSize: nat, row: nat)
    requires batchSize > 0 && row < n
    ensures row / batchSize < NumBatches(n, batchSize)
    ensures BatchStart(row / batchSize, batchSize) <= row < BatchEnd(row / batchSize, batchSize, n)
  {
    var q := row / batchSize;
    assert row == q * batchSize + row % batchSize;
    DivBelow(row, batchSize, NumBatches(n, batchSize));
    assert (q + 1) * batchSize == q * batchSize + batchSize;
  }

  /** Row r lies in no batch other than r / B: batches cover every row exactly once. */
  lemma RowInExactlyOneBatch(n: nat, batchSize: nat, row: nat, b: nat)
    requires batchSize > 0 && row < n
    ensures row / batchSize < NumBatches(n, batchSize)
    ensures BatchStart(b, batchSize) <= row < BatchEnd(b, batchSize, n) <==> b == row / batchSize
  {
    RowBatch(n, batchSize, row);
    if BatchStart(b, batchSize) <= row < BatchEnd(b, batchSize, n) {
      assert (b + 1) * batchSize == b * batchSize + batchSize;
      DivModOfLinear(b, row - b * batchSize, batchSize);
    }
  }

  /** Every batch range is non-empty and ends no later than row n. */
  lemma BatchInRange(n: nat, batchSize: nat, b: nat)
    requires batchSize > 0 && b < NumBatches(n, batchSize)
    ensures BatchStart(b, batchSize) < BatchEnd(b, batchSize, n) <= n
  {
    var nb := NumBatches(n, batchSize);
    if b < nb - 1 {
      MulStrictlyMonotone(b, nb - 1, batchSize);
    }
    assert (b + 1) * batchSize == b * batchSize + batchSize;
  }

  /** A batch that is not the last holds B rows and ends where the next batch starts. */
  lemma InnerBatchFull(n: nat, batchSize: nat, b: nat)
    requires batchSize > 0 && b + 1 < NumBatches(n, batchSize)
    ensures BatchEnd(b, batchSize, n) == BatchStart(b + 1, batchSize)
    ensures BatchEnd(b, batchSize, n) - BatchStart(b, batchSize) == batchSize
  {
    var nb := NumBatches(n, batchSize);
    if b + 1 < nb - 1 {
      MulStrictlyMonotone(b + 1, nb - 1, batchSize);
    }
    assert (b + 1) * batchSize == b * batchSize + batchSize;
  }

  /** The last batch ends at row n and holds n - (ceil(n / B) - 1) * B rows, between 1 and B. */
  lemma LastBatchPartial(n: nat, batchSize: nat)
    requires batchSize > 0 && n > 0
    ensures NumBatches(n, batchSize) > 0
    ensures BatchEnd(NumBatches(n, batchSize) - 1, batchSize, n) == n
    ensures BatchEnd(NumBatches(n, batchSize) - 1, batchSize, n) - BatchStart(NumBatches(n, batchSize) - 1, batchSize)
            == n - (NumBatches(n, batchSize) - 1) * batchSize
    ensures 1 <= n - (NumBatches(n, batchSize) - 1) * batchSize <= batchSize
  {
    var nb := NumBatches(n, batchSize);
    assert nb * batchSize == (nb - 1) * batchSize + batchSize;
  }

  /** Consecutive batches meet: the rows are covered in order, from 0 up to n, with every
      batch but the last full and the last holding n - (ceil(n / B) - 1) * B rows. */
  lemma BatchesTile(n: nat, batchSize: nat, b: nat)
    requires batchSize > 0 && b < NumBatches(n, batchSize)
    ensures BatchStart(0, batchSize) == 0
    ensures BatchStart(b, batchSize) < BatchEnd(b, batchSize, n) <= n
    ensures b + 1 < NumBatches(n, batchSize) ==>
              BatchEnd(b, batchSize, n) == BatchStart(b + 1, batchSize)
              && BatchEnd(b, batchSize, n) - BatchStart(b, batchSize) == batchSize
    ensures b + 1 == NumBatches(n, batchSize) ==>
              BatchEnd(b, batchSize, n) == n
              && BatchEnd(b, batchSize, n) - BatchStart(b, batchSize) == n - (NumBatches(n, batchSize) - 1) * batchSize
              && 1 <= n - (NumBatches(n, batchSize) - 1) * batchSize <= batchSize
  {
    BatchInRange(n, batchSize, b);
    if b + 1 < NumBatches(n, batchSize) {
      InnerBatchFull(n, batchSize, b);
    } else {
      LastBatchPartial(n, batchSize);
    }
  }

  /** A row of `width` zeros: the pre-allocated, not yet written feature row. */
  function Zeros(width: nat): (r: seq<real>)
    ensures |r| == width && forall c :: 0 <= c < width ==> r[c] == 0.0
  {
    seq(width, _ => 0.0)
  }

  /** features[lo:lo + len(rows)] = rows: the rows from lo on are overwritten by `rows`, and
      every other row keeps its value. */
  function WriteRows(features: Matrix, lo: nat, rows: Matrix): (r: Matrix)
    requires lo + |rows| <= |features|
    ensures |r| == |features|
    ensures forall e :: 0 <= e < lo ==> r[e] == features[e]
    ensures forall e :: lo <= e < lo + |rows| ==> r[e] == rows[e - lo]
    ensures forall e :: lo + |rows| <= e < |features| ==> r[e] == features[e]
  {
    features[..lo] + rows + features[lo + |rows|..]
  }

  /** Examples [lo, hi) of a well-shaped tensor form a well-shaped batch, and the features
      extracted from it are, row by row, those of the examples it holds. */
  lemma SliceFeatures(x: Tensor3, g: Geometry, d: Dictionary, threshold: Option<real>, lo: nat, hi: nat)
    requires g.ViewExists() && IsTensor3(x, |x|, g.freqBins, g.timeFrames) && Fits(d, g.Pixels())
    requires lo <= hi <= |x|
    ensures IsTensor3(x[lo..hi], hi - lo, g.freqBins, g.timeFrames)
    ensures ExtractFeatures(x[lo..hi], g, d, threshold).Success? ==>
              forall i :: 0 <= i < hi - lo ==>
                ExtractFeatures(x[lo..hi], g, d, threshold).value[i] == ExampleFeatures(x[lo + i], g, d, threshold)
  {
    var batch := x[lo..hi];
    assert forall i :: 0 <= i < hi - lo ==> batch[i] == x[lo + i];
  }

  /** Writing the features of examples [lo, hi) at row lo extends the finished prefix of the
      feature matrix from lo to hi and leaves the rows after hi zero. */
  lemma WriteBatchExtendsPrefix(x: Tensor3, g: Geometry, d: Dictionary, threshold: Option<real>,
                                features: Matrix, width: nat, lo: nat, hi: nat, rows: Matrix)
    requires g.ViewExists() && g.Poolable() && IsTensor3(x, |x|, g.freqBins, g.timeFrames) && Fits(d, g.Pixels())
    requires lo <= hi <= |x| == |features| && |rows| == hi - lo
    requires forall e :: 0 <= e < lo ==> features[e] == ExampleFeatures(x[e], g, d, threshold)
    requires forall e :: lo <= e < |x| ==> features[e] == Zeros(width)
    requires forall i :: 0 <= i < hi - lo ==> rows[i] == ExampleFeatures(x[lo + i], g, d, threshold)
    ensures forall e :: 0 <= e < hi ==> WriteRows(features, lo, rows)[e] == ExampleFeatures(x[e], g, d, threshold)
    ensures forall e :: hi <= e < |x| ==> WriteRows(features, lo, rows)[e] == Zeros(width)
  {
    var written := WriteRows(features, lo, rows);
    forall e | lo <= e < hi
      ensures written[e] == ExampleFeatures(x[e], g, d, threshold)
    {
      assert written[e] == rows[e - lo];
      assert lo + (e - lo) == e;
    }
  }

  /** The batch loop of one pass: allocate an n x 5K matrix of zeros, then for every batch b in
      increasing order extract the features of examples [b*B, min((b+1)*B, n)) and write them
      into the same rows. The pass aborts with the first batch's error; since every batch has
      the same geometry, it fails exactly when there is at least one example and the geometry
      cannot be encoded or pooled. Row e of the result is the feature vector of example e
      alone, so the result does not depend on the batch size. */
  method RunBatches(x: Tensor3, g: Geometry, d: Dictionary, threshold: Option<real>, batchSize: nat)
    returns (r: Result<Matrix>)
    requires batchSize > 0
    requires g.ViewExists() && IsTensor3(x, |x|, g.freqBins, g.timeFrames) && Fits(d, g.Pixels())
    ensures r.Failure? <==> |x| > 0 && (g.Pixels() == 0 || !g.Poolable())
    ensures r.Failure? ==> r.error == (if g.Pixels() == 0 then AmbiguousReshape else EmptyReduction)
    ensures r.Success? ==> IsMatrix(r.value, |x|, (TimeSlices + 1) * d.centroids)
    ensures r.Success? ==> forall e :: 0 <= e < |x| ==> r.value[e] == ExampleFeatures(x[e], g, d, threshold)
  {
    var n := |x|;
    var width := (TimeSlices + 1) * d.centroids;
    var numBatches := NumBatches(n, batchSize);
    var features: Matrix := seq(n, _ => Zeros(width));
    var b, lo := 0, 0;
    while b < numBatches
      invariant 0 <= b <= numBatches && lo == BatchStart(b, batchSize)
      invariant lo > 0 ==> g.Pixels() > 0 && g.Poolable()
      invariant |features| == n
      invariant forall e :: 0 <= e < n && e < lo ==> features[e] == ExampleFeatures(x[e], g, d, threshold)
      invariant forall e :: 0 <= e < n && lo <= e ==> features[e] == Zeros(width)
    {
      var hi := BatchEnd(b, batchSize, n);
      BatchInRange(n, batchSize, b);
      SliceFeatures(x, g, d, threshold, lo, hi);
      var batchFeatures := ExtractFeatures(x[lo..hi], g, d, threshold);
      if batchFeatures.Failure? {
        return Failure(batchFeatures.error);
      }
      var rows := batchFeatures.value;
      WriteBatchExtendsPrefix(x, g, d, threshold, features, width, lo, hi, rows);
      features := WriteRows(features, lo, rows);
      assert BatchStart(b + 1, batchSize) == lo + batchSize;
      b, lo := b + 1, lo + batchSize;
    }
    r := Success(features);
  }
}
