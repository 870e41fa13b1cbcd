/** The sliding-window patch view: a strided, non-copying window over the spectrogram buffer. */
module PatchViews {
  import opened Results
  import opened Indexing
  import opened Tensors

  /** Extents of the 5-axis view: (example, frequency offset, row in patch, time offset, column in patch). */
  datatype Shape5 = Shape5(examples: nat, freqPositions: nat, height: nat, timePositions: nat, width: nat)

  /** Steps, in elements, that one unit along each of the five axes moves in the buffer. */
  datatype Strides5 = Strides5(example: int, freqPosition: int, row: int, timePosition: int, column: int)

  datatype PatchView = PatchView(shape: Shape5, strides: Strides5)

  /** The view over a C-contiguous n x freqBins x timeFrames spectrogram with patches of
      `height` frequency bins by `width` time frames. The two positional axes reuse the
      strides of the frequency and time axes, which is what makes the patches overlap. */
  function MakePatchView(n: nat, freqBins: nat, timeFrames: nat, height: nat, width: nat): (r: Result<PatchView>)
    ensures r.Failure? <==> height > freqBins + 1 || width > timeFrames + 1
    ensures r.Failure? ==> r.error == NegativeDimension
    ensures r.Success? ==>
      r.value.shape == Shape5(n, freqBins - height + 1, height, timeFrames - width + 1, width)
  {
    if height > freqBins + 1 || width > timeFrames + 1 then
      Failure(NegativeDimension)
    else
      var s0, s1, s2 := freqBins * timeFrames, timeFrames, 1;
      Success(PatchView(
        Shape5(n, freqBins - height + 1, height, timeFrames - width + 1, width),
        Strides5(s0, s1, s1, s2, s2)))
  }

  /** (e, f, i, t, j) addresses a cell of the view. */
  predicate InView(v: PatchView, e: int, f: int, i: int, t: int, j: int) {
    && 0 <= e < v.shape.examples
    && 0 <= f < v.shape.freqPositions
    && 0 <= i < v.shape.height
    && 0 <= t < v.shape.timePositions
    && 0 <= j < v.shape.width
  }

  /** Buffer position the view reads for cell (e, f, i, t, j). */
  function Offset(v: PatchView, e: int, f: int, i: int, t: int, j: int): int {
    e * v.strides.example + f * v.strides.freqPosition + i * v.strides.row
      + t * v.strides.timePosition + j * v.strides.column
  }

  /** Every cell of the patch view reads inside the spectrogram buffer, and cell
      (e, f, i, t, j) is spectrogram cell [e][f + i][t + j]. */
  lemma StridedReadIsWindow(x: Tensor3, n: nat, freqBins: nat, timeFrames: nat, height: nat, width: nat,
                            e: int, f: int, i: int, t: int, j: int)
    requires IsTensor3(x, n, freqBins, timeFrames)
    requires MakePatchView(n, freqBins, timeFrames, height, width).Success?
    requires InView(MakePatchView(n, freqBins, timeFrames, height, width).value, e, f, i, t, j)
    ensures f + i < freqBins && t + j < timeFrames
    ensures Offset(MakePatchView(n, freqBins, timeFrames, height, width).value, e, f, i, t, j)
            == Linear3(e, f + i, t + j, freqBins, timeFrames)
    ensures 0 <= Offset(MakePatchView(n, freqBins, timeFrames, height, width).value, e, f, i, t, j)
               < |RowMajor3(x, n, freqBins, timeFrames)|
    ensures RowMajor3(x, n, freqBins, timeFrames)[
              Offset(MakePatchView(n, freqBins, timeFrames, height, width).value, e, f, i, t, j)]
            == x[e][f + i][t + j]
  {
    var v := MakePatchView(n, freqBins, timeFrames, height, width).value;
    calc {
      Offset(v, e, f, i, t, j);
      e * (freqBins * timeFrames) + f * timeFrames + i * timeFrames + t + j;
      { assert e * (freqBins * timeFrames) == (e * freqBins) * timeFrames; }
      (e * freqBins + (f + i)) * timeFrames + (t + j);
      Linear3(e, f + i, t + j, freqBins, timeFrames);
    }
    RowMajor3Index(x, n, freqBins, timeFrames, e, f + i, t + j);
  }
}
