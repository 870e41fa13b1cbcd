/** The pooling summariser: max over frequency, then a global max and four quadrant maxes
    over time, concatenated into one vector of 5 * centroids features per example. */
module Pooling {
  import opened Results
  import opened Tensors

  /** Number of equal time slices in quadrant pooling. */
  const TimeSlices: nat := 4

  /** Largest element of a non-empty sequence. */
  function Max(s: seq<real>): (m: real)
    requires |s| > 0
    ensures exists i :: 0 <= i < |s| && s[i] == m
    ensures forall i :: 0 <= i < |s| ==> s[i] <= m
  {
    if |s| == 1 then s[0]
    else
      var rest := Max(s[1..]);
      assert forall i :: 1 <= i < |s| ==> s[i] == s[1..][i - 1];
      if s[0] >= rest then s[0] else rest
  }

  /** v is the value of centroid c at time step t for some frequency position below freqPositions. */
  ghost predicate AttainedInFreq(feat: Tensor3, freqPositions: nat, t: nat, c: nat, v: real) {
    exists f :: 0 <= f < freqPositions && f < |feat| && t < |feat[f]| && c < |feat[f][t]| && feat[f][t][c] == v
  }

  /** v is the value of centroid c at some time step in [lo, hi). */
  ghost predicate AttainedInTime(pooled: Matrix, lo: nat, hi: nat, c: nat, v: real) {
    exists t :: lo <= t < hi && t < |pooled| && c < |pooled[t]| && pooled[t][c] == v
  }

  /** Max of centroid c at time step t over every frequency position. */
  function FreqMax(feat: Tensor3, freqPositions: nat, t: nat, c: nat): (m: real)
    requires 0 < freqPositions <= |feat|
    requires forall f :: 0 <= f < freqPositions ==> t < |feat[f]| && c < |feat[f][t]|
    ensures forall f :: 0 <= f < freqPositions ==> feat[f][t][c] <= m
    ensures AttainedInFreq(feat, freqPositions, t, c, m)
  {
    var column := seq(freqPositions, f requires 0 <= f < freqPositions => feat[f][t][c]);
    assert forall f :: 0 <= f < freqPositions ==> column[f] == feat[f][t][c];
    Max(column)
  }

  /** Max over the frequency axis of one example's feature map, laid out [f][t][c]: for each
      time step and centroid, the largest value at any frequency position. */
  function FreqPool(feat: Tensor3, freqPositions: nat, timePositions: nat, centroids: nat): (pooled: Matrix)
    requires freqPositions > 0 && IsTensor3(feat, freqPositions, timePositions, centroids)
    ensures IsMatrix(pooled, timePositions, centroids)
    ensures forall f, t, c :: 0 <= f < freqPositions && 0 <= t < timePositions && 0 <= c < centroids ==>
              feat[f][t][c] <= pooled[t][c]
    ensures forall t, c :: 0 <= t < timePositions && 0 <= c < centroids ==>
              AttainedInFreq(feat, freqPositions, t, c, pooled[t][c])
  {
    var pooled := seq(timePositions, t requires 0 <= t < timePositions =>
      seq(centroids, c requires 0 <= c < centroids => FreqMax(feat, freqPositions, t, c)));
    assert forall t, c :: 0 <= t < timePositions && 0 <= c < centroids ==>
      pooled[t][c] == FreqMax(feat, freqPositions, t, c);
    pooled
  }

  /** Max of centroid c of the frequency-pooled map over time steps [lo, hi). */
  function StepMax(pooled: Matrix, lo: nat, hi: nat, centroids: nat, c: nat): (m: real)
    requires lo < hi <= |pooled|
    requires forall t :: lo <= t < hi ==> |pooled[t]| == centroids
    requires c < centroids
    ensures forall t :: lo <= t < hi ==> pooled[t][c] <= m
    ensures AttainedInTime(pooled, lo, hi, c, m)
  {
    var column := seq(hi - lo, d requires 0 <= d < hi - lo => pooled[lo + d][c]);
    assert forall t :: lo <= t < hi ==> column[t - lo] == pooled[t][c];
    Max(column)
  }

  /** Per-centroid max of the frequency-pooled map over time steps [lo, hi). */
  function TimeMax(pooled: Matrix, lo: nat, hi: nat, centroids: nat): (r: seq<real>)
    requires lo < hi <= |pooled|
    requires forall t :: lo <= t < hi ==> |pooled[t]| == centroids
    ensures |r| == centroids
    ensures forall t, c :: lo <= t < hi && 0 <= c < centroids ==> pooled[t][c] <= r[c]
    ensures forall c :: 0 <= c < centroids ==> AttainedInTime(pooled, lo, hi, c, r[c])
  {
    var maxes := seq(centroids, c requires 0 <= c < centroids => StepMax(pooled, lo, hi, centroids, c));
    assert forall c :: 0 <= c < centroids ==> maxes[c] == StepMax(pooled, lo, hi, centroids, c);
    maxes
  }

  /** Width of each quadrant slice: the time-position count floor-divided by four. */
  function SliceSize(timePositions: nat): nat {
    timePositions / TimeSlices
  }

  /** First time step pooled by part j of the output: part 0 is the whole range, part q + 1
      is quadrant q. */
  function PartStart(j: nat, timePositions: nat): nat {
    if j == 0 then 0 else (j - 1) * SliceSize(timePositions)
  }

  /** One past the last time step pooled by part j. */
  function PartEnd(j: nat, timePositions: nat): nat {
    if j == 0 then timePositions else j * SliceSize(timePositions)
  }

  /** The quadrant slices [q*s, (q+1)*s) lie inside [0, T), follow one another without gap
      or overlap, drop a remainder of fewer than four steps, and are non-empty exactly
      when T >= 4. */
  lemma QuadrantSlices(timePositions: nat)
    ensures forall q :: 1 <= q <= TimeSlices ==>
              0 <= PartStart(q, timePositions) <= PartEnd(q, timePositions) <= timePositions
    ensures forall q :: 1 <= q < TimeSlices ==> PartEnd(q, timePositions) == PartStart(q + 1, timePositions)
    ensures forall q, q' :: 1 <= q < q' <= TimeSlices ==> PartEnd(q, timePositions) <= PartStart(q', timePositions)
    ensures PartStart(1, timePositions) == 0
    ensures 0 <= timePositions - PartEnd(TimeSlices, timePositions) < TimeSlices
    ensures forall q :: 1 <= q <= TimeSlices ==>
              (PartStart(q, timePositions) < PartEnd(q, timePositions) <==> timePositions >= TimeSlices)
  {
    var s := SliceSize(timePositions);
    assert timePositions == 4 * s + timePositions % 4;
    forall q | 1 <= q <= TimeSlices
      ensures PartStart(q, timePositions) <= PartEnd(q, timePositions)
    {
      assert q * s == (q - 1) * s + s;
    }
    forall q, q' | 1 <= q < q' <= TimeSlices
      ensures PartEnd(q, timePositions) <= PartStart(q', timePositions)
    {
      assert q * s <= (q' - 1) * s by {
        assert (q' - 1) * s - q * s == (q' - 1 - q) * s;
      }
    }
    forall q | 1 <= q <= TimeSlices
      ensures PartEnd(q, timePositions) <= timePositions
    {
      assert (4 - q) * s >= 0;
      assert q * s == 4 * s - (4 - q) * s;
    }
  }

  /** v is the max of centroid c over every frequency position and the time steps [lo, hi). */
  ghost predicate IsWindowMax(feat: Tensor3, freqPositions: nat, timePositions: nat, centroids: nat,
                              lo: nat, hi: nat, c: nat, v: real)
    requires IsTensor3(feat, freqPositions, timePositions, centroids)
    requires hi <= timePositions && c < centroids
  {
    && (forall f, t :: 0 <= f < freqPositions && lo <= t < hi ==> feat[f][t][c] <= v)
    && (exists f, t :: 0 <= f < freqPositions && lo <= t < hi && feat[f][t][c] == v)
  }

  /** Part j's time range is non-empty and inside [0, T) once slices have positive width. */
  lemma PartBounds(j: nat, timePositions: nat)
    requires j <= TimeSlices && SliceSize(timePositions) > 0
    ensures PartStart(j, timePositions) < PartEnd(j, timePositions) <= timePositions
  {
    var s := SliceSize(timePositions);
    if j > 0 {
      assert j * s == (j - 1) * s + s;
      assert j * s <= 4 * s by {
        assert 4 * s - j * s == (4 - j) * s;
      }
    }
  }

  /** Part j of the pooled vector: the whole-range max for j = 0, quadrant j - 1 otherwise. */
  function Part(pooled: Matrix, j: nat, timePositions: nat, centroids: nat): (r: seq<real>)
    requires j <= TimeSlices && SliceSize(timePositions) > 0
    requires IsMatrix(pooled, timePositions, centroids)
    ensures |r| == centroids
  {
    PartBounds(j, timePositions);
    TimeMax(pooled, PartStart(j, timePositions), PartEnd(j, timePositions), centroids)
  }

  /** The five parts of the pooled vector, in output order. */
  function Parts(pooled: Matrix, timePositions: nat, centroids: nat): (parts: seq<seq<real>>)
    requires SliceSize(timePositions) > 0
    requires IsMatrix(pooled, timePositions, centroids)
    ensures |parts| == TimeSlices + 1
    ensures forall j :: 0 <= j < |parts| ==> parts[j] == Part(pooled, j, timePositions, centroids)
  {
    seq(TimeSlices + 1, j requires 0 <= j < TimeSlices + 1 => Part(pooled, j, timePositions, centroids))
  }

  /** The pooled feature vector of one example's feature map [f][t][c]: the global time max
      followed by the four quadrant maxes of the frequency-pooled map. */
  function Pool(feat: Tensor3, freqPositions: nat, timePositions: nat, centroids: nat): (r: seq<real>)
    requires freqPositions > 0 && SliceSize(timePositions) > 0
    requires IsTensor3(feat, freqPositions, timePositions, centroids)
    ensures |r| == (TimeSlices + 1) * centroids
  {
    var parts := Parts(FreqPool(feat, freqPositions, timePositions, centroids), timePositions, centroids);
    HStackLength(parts, centroids);
    HStack(parts)
  }

  /** Entry c of part j of the pooled vector is the max of centroid c over every frequency
      position and the time steps of part j. */
  lemma PartIsWindowMax(feat: Tensor3, freqPositions: nat, timePositions: nat, centroids: nat, j: nat, c: nat)
    requires freqPositions > 0 && SliceSize(timePositions) > 0
    requires IsTensor3(feat, freqPositions, timePositions, centroids)
    requires j <= TimeSlices && c < centroids
    ensures PartStart(j, timePositions) < PartEnd(j, timePositions) <= timePositions
    ensures IsWindowMax(feat, freqPositions, timePositions, centroids,
                        PartStart(j, timePositions), PartEnd(j, timePositions), c,
                        Part(FreqPool(feat, freqPositions, timePositions, centroids), j, timePositions, centroids)[c])
  {
    PartBounds(j, timePositions);
    var pooled := FreqPool(feat, freqPositions, timePositions, centroids);
    var lo, hi := PartStart(j, timePositions), PartEnd(j, timePositions);
    var v := Part(pooled, j, timePositions, centroids)[c];
    assert v == TimeMax(pooled, lo, hi, centroids)[c];
    forall f, t | 0 <= f < freqPositions && lo <= t < hi
      ensures feat[f][t][c] <= v
    {
      assert feat[f][t][c] <= pooled[t][c];
    }
    assert AttainedInTime(pooled, lo, hi, c, v);
    var t :| lo <= t < hi && t < |pooled| && c < |pooled[t]| && pooled[t][c] == v;
    assert AttainedInFreq(feat, freqPositions, t, c, pooled[t][c]);
    var f :| 0 <= f < freqPositions && f < |feat| && t < |feat[f]| && c < |feat[f][t]| && feat[f][t][c] == pooled[t][c];
    assert 0 <= f < freqPositions && lo <= t < hi && feat[f][t][c] == v;
  }

  /** Entry j * K + c of the pooled vector is the max of centroid c over every frequency position
      and the time steps of part j: [0, T) for j = 0, [(j-1)*s, j*s) for quadrant j - 1. */
  lemma PoolLayout(feat: Tensor3, freqPositions: nat, timePositions: nat, centroids: nat, j: nat, c: nat)
    requires freqPositions > 0 && SliceSize(timePositions) > 0
    requires IsTensor3(feat, freqPositions, timePositions, centroids)
    requires j <= TimeSlices && c < centroids
    ensures j * centroids + c < |Pool(feat, freqPositions, timePositions, centroids)|
    ensures PartStart(j, timePositions) < PartEnd(j, timePositions) <= timePositions
    ensures IsWindowMax(feat, freqPositions, timePositions, centroids,
                        PartStart(j, timePositions), PartEnd(j, timePositions), c,
                        Pool(feat, freqPositions, timePositions, centroids)[j * centroids + c])
  {
    var pooled := FreqPool(feat, freqPositions, timePositions, centroids);
    var parts := Parts(pooled, timePositions, centroids);
    HStackIndex(parts, centroids, j, c);
    PartIsWindowMax(feat, freqPositions, timePositions, centroids, j, c);
  }
  /** Each quadrant max is at most the global time max of the same centroid. */
  lemma QuadrantBelowGlobal(feat: Tensor3, freqPositions: nat, timePositions: nat, centroids: nat, q: nat, c: nat)
    requires freqPositions > 0 && SliceSize(timePositions) > 0
    requires IsTensor3(feat, freqPositions, timePositions, centroids)
    requires q < TimeSlices && c < centroids
    ensures (q + 1) * centroids + c < |Pool(feat, freqPositions, timePositions, centroids)|
    ensures Pool(feat, freqPositions, timePositions, centroids)[(q + 1) * centroids + c]
            <= Pool(feat, freqPositions, timePositions, centroids)[c]
  {
    PoolLayout(feat, freqPositions, timePositions, centroids, 0, c);
    PoolLayout(feat, freqPositions, timePositions, centroids, q + 1, c);
  }

  /** summarise_features on a batch [e][f][t][c]: fails when a max would range over an empty
      axis (no frequency positions, or quadrant slices of width 0), otherwise pools every
      example on its own. */
  function SummariseBatch(feats: Tensor4, n: nat, freqPositions: nat, timePositions: nat, centroids: nat): (r: Result<Matrix>)
    requires IsTensor4(feats, n, freqPositions, timePositions, centroids)
    ensures r.Success? <==> freqPositions > 0 && timePositions >= TimeSlices
    ensures r.Failure? ==> r.error == EmptyReduction
    ensures r.Success? ==> IsMatrix(r.value, n, (TimeSlices + 1) * centroids)
    ensures r.Success? ==> forall e :: 0 <= e < n ==> r.value[e] == Pool(feats[e], freqPositions, timePositions, centroids)
  {
    if freqPositions == 0 then Failure(EmptyReduction)
    else if timePositions == 0 then Failure(EmptyReduction)
    else if SliceSize(timePositions) == 0 then Failure(EmptyReduction)
    else Success(seq(n, e requires 0 <= e < n => Pool(feats[e], freqPositions, timePositions, centroids)))
  }
}
