/** The dictionary encoder: each flattened patch minus the training means, projected on
    PC = P · centroidsᵀ, then optionally soft-thresholded. */
module Encoder {
  import opened Results
  import opened Tensors

  /** The trained parameters the encoder reads: per-pixel means and the precombined
      (pixels x centroids) projection matrix PC. Both are opaque inputs here. */
  datatype Dictionary = Dictionary(means: seq<real>, pc: Matrix, centroids: nat)

  /** d applies to flattened patches of `pixels` entries. */
  predicate Fits(d: Dictionary, pixels: nat) {
    |d.means| == pixels && IsMatrix(d.pc, pixels, d.centroids)
  }

  function Dot(u: seq<real>, v: seq<real>): real
    requires |u| == |v|
  {
    if |u| == 0 then 0.0 else u[0] * v[0] + Dot(u[1..], v[1..])
  }

  /** A row minus the means, entry by entry. */
  function Centered(row: seq<real>, means: seq<real>): (r: seq<real>)
    requires |means| == |row|
    ensures |r| == |row|
    ensures forall p :: 0 <= p < |row| ==> r[p] == row[p] - means[p]
  {
    seq(|row|, p requires 0 <= p < |row| => row[p] - means[p])
  }

  /** Column k of a matrix whose rows have more than k entries. */
  function Column(m: Matrix, k: nat): (r: seq<real>)
    requires forall p :: 0 <= p < |m| ==> k < |m[p]|
    ensures |r| == |m|
    ensures forall p :: 0 <= p < |m| ==> r[p] == m[p][k]
  {
    seq(|m|, p requires 0 <= p < |m| => m[p][k])
  }

  /** Raw activation of centroid k for one flattened patch: (row - means) · PC[:, k]. */
  function Activation(row: seq<real>, d: Dictionary, k: nat): real
    requires Fits(d, |row|) && k < d.centroids
  {
    Dot(Centered(row, d.means), Column(d.pc, k))
  }

  /** The activation function: soft threshold max(a - t, 0) when a threshold t is set,
      the identity (linear features) when none is. */
  function Activate(a: real, threshold: Option<real>): (r: real)
    ensures threshold.None? ==> r == a
    ensures threshold.Some? ==> r >= 0.0 && r >= a - threshold.value
    ensures threshold.Some? ==> r == 0.0 || r == a - threshold.value
  {
    match threshold
    case None => a
    case Some(t) => if a - t > 0.0 then a - t else 0.0
  }

  /** With a threshold t the feature is zero exactly when the raw activation is at most t,
      and it grows with the activation; without one it is the activation itself. */
  lemma ThresholdSemantics(a: real, b: real, t: real)
    ensures Activate(a, Some(t)) == 0.0 <==> a <= t
    ensures a >= t ==> Activate(a, Some(t)) == a - t
    ensures a <= b ==> Activate(a, Some(t)) <= Activate(b, Some(t))
    ensures Activate(a, None) == a
  {
  }

  /** The encoded feature vector of one flattened patch: one activated value per centroid. */
  function EncodeRow(row: seq<real>, d: Dictionary, threshold: Option<real>): (r: seq<real>)
    requires Fits(d, |row|)
    ensures |r| == d.centroids
    ensures forall k :: 0 <= k < d.centroids ==> r[k] == Activate(Activation(row, d, k), threshold)
  {
    seq(d.centroids, k requires 0 <= k < d.centroids => Activate(Activation(row, d, k), threshold))
  }

  /** The whole matrix of flattened patches encoded at once, row by row, as the single
      matrix product and element-wise threshold do. */
  function EncodeRows(rows: Matrix, d: Dictionary, threshold: Option<real>): (r: Matrix)
    requires forall i :: 0 <= i < |rows| ==> Fits(d, |rows[i]|)
    ensures IsMatrix(r, |rows|, d.centroids)
    ensures forall i :: 0 <= i < |rows| ==> r[i] == EncodeRow(rows[i], d, threshold)
  {
    seq(|rows|, i requires 0 <= i < |rows| => EncodeRow(rows[i], d, threshold))
  }

  lemma {:induction false} DotZeroLeft(u: seq<real>, v: seq<real>)
    requires |u| == |v|
    requires forall p :: 0 <= p < |u| ==> u[p] == 0.0
    ensures Dot(u, v) == 0.0
    decreases |u|
  {
    if |u| > 0 {
      DotZeroLeft(u[1..], v[1..]);
    }
  }

  /** A patch equal to the training means has zero raw activation for every centroid, so
      its features are max(-t, 0) with a threshold t and 0 without one. */
  lemma MeanPatchActivation(d: Dictionary, threshold: Option<real>, k: nat)
    requires Fits(d, |d.means|) && k < d.centroids
    ensures Activation(d.means, d, k) == 0.0
    ensures EncodeRow(d.means, d, threshold)[k] == Activate(0.0, threshold)
  {
    DotZeroLeft(Centered(d.means, d.means), Column(d.pc, k));
  }
}
