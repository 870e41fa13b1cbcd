# Whale-call feature pipeline, modelled in Dafny

This project models the feature-extraction core of the `generate_predictions` script of the
kaggle-whales repository. The script turns each spectrogram into one fixed-length feature
vector for a linear classifier. The modelled core starts from the log-spectrogram tensor
(examples x frequency bins F x time frames T):

1. **Patch view.** A strided, non-copying window of shape `(N, F-h+1, h, T-w+1, w)` over
   the spectrogram buffer (module `PatchViews`, index arithmetic in `Indexing` and `Tensors`).
2. **Encoding.** The patches of a batch are flattened into rows of `h*w` pixels. The
   training means are subtracted, the rows are multiplied by the trained matrix `PC`,
   an optional soft threshold `max(x - t, 0)` is applied, and the result is reshaped to
   `(batch, F-h+1, T-w+1, K)` (modules `Encoder` and `FeatureExtraction`).
3. **Pooling.** A max over frequency, then one global max and four quadrant maxes over
   time, concatenated into `5*K` features (module `Pooling`).
4. **Batching.** `ceil(N/B)` batches are written into a pre-allocated feature matrix
   (module `Batching`, a loop that writes each batch into its rows of the matrix).
5. **Interval normalisation.** `(x - fmin) / (fmax - fmin)` per column, without clamping
   (module `IntervalNormalisation`).

`Pipeline.RunPass` chains these steps for one pass. The training pass and the test pass
of the script are the same computation on different spectrograms.

Values are `real`. The trained parameters (`means`, `PC`, the threshold, `fmins`, `fmaxs`)
are opaque inputs. Errors that numpy raises become `Results.Failure` values, and the run
aborts on them:
- `NegativeDimension`: `as_strided` is asked for a negative extent, because `h > F+1` or
  `w > T+1`.
- `AmbiguousReshape`: `reshape(-1, h*w)` is called with `h*w == 0`.
- `EmptyReduction`: `max` is taken over an empty axis. This happens when `F-h+1 == 0`, or
  when `(T-w+1) // 4 == 0` and so the quadrant slices are empty.

With at least one example, a pass therefore succeeds exactly when `1 <= h <= F`,
`1 <= w <= T` and `T-w+1 >= 4`.

The script does not guard `T-w+1 < 4`: numpy's `max` raises on the first empty time range.
That is the global max over time when `T-w+1 == 0`, and the first quadrant slice otherwise.
The model follows the script. Likewise, a patch exactly one bin taller or wider than the
spectrogram is not rejected when the view is built: it fails only when a batch is
flattened or pooled.

The script never runs a pass with no examples: it reads the first decimated clip to size
the spectrogram array (generate_predictions.gen1.py:82 and :217), which raises first. For
`N == 0` the model chooses an outcome of its own: `Pipeline.RunPass` fails with
`NegativeDimension` when the view cannot be built, and otherwise returns an empty matrix.

The strided view and the flattening are tied together. `PatchViews.StridedReadIsWindow`
proves that view cell `(e,f,i,t,j)` reads spectrogram cell `[e][f+i][t+j]` of the
row-major buffer. `FeatureExtraction.FlattenIndex` proves the flattened batch holds that
same cell at row `(e*(F-h+1)+f)*(T-w+1)+t`, column `i*w+j`. `Pipeline.ViewMatchesFlatten`
joins the two. `FlattenBatch` reads the spectrogram through that index map directly.

## Model

| member | source | states |
|---|---|---|
| `PatchViews.MakePatchView` | generate_predictions.gen1.py:96-100 | The view fails with a negative extent exactly when `h > F+1` or `w > T+1`. Otherwise it has shape `(N, F-h+1, h, T-w+1, w)`. |
| `PatchViews.StridedReadIsWindow` | generate_predictions.gen1.py:96-100 | With strides `(s0, s1, s1, s2, s2)` from a C-contiguous spectrogram, view cell `(e,f,i,t,j)` sits at offset `e*s0 + (f+i)*s1 + (t+j)*s2`. That offset is inside the buffer, and the cell read is spectrogram `[e][f+i][t+j]`. |
| `Tensors.RowMajor3Index` | generate_predictions.gen1.py:83-97 | In the C-order buffer of the `(N, F, T)` spectrogram array, cell `(e, r, c)` is at linear index `(e*F + r)*T + c`, which is inside the buffer. |
| `Indexing.Linear2RoundTrip` | generate_predictions.gen1.py:135 | The row-major index `i*w + j` of an in-range pixel is below `h*w`, and division and remainder by `w` give back `i` and `j`. |
| `Indexing.Linear2Onto` | generate_predictions.gen1.py:135 | Every column below `h*w` is `i*w + j` for exactly the in-range pixel `(col / w, col % w)`. |
| `Indexing.Linear3RoundTrip` | generate_predictions.gen1.py:144 | The row index `(e*FP + f)*TP + t` of an in-range patch is below `n*FP*TP`, and decomposing it gives back `(e, f, t)`. |
| `Indexing.Linear3Onto` | generate_predictions.gen1.py:135 | Every row below `n*FP*TP` decomposes into an in-range `(e, f, t)` whose row index is that row. |
| `FeatureExtraction.PatchRowPixel` | generate_predictions.gen1.py:135 | In a flattened patch, pixel `(i, j)` is at column `i*w + j` and holds spectrogram cell `[f+i][t+j]`. |
| `FeatureExtraction.FlattenRow` | generate_predictions.gen1.py:135 | After the transpose `(0,1,3,2,4)` and reshape, row `(e*(F-h+1) + f)*(T-w+1) + t` is the flattened patch `(e, f, t)`. |
| `FeatureExtraction.FlattenIndex` | generate_predictions.gen1.py:135 | Row `(e*(F-h+1)+f)*(T-w+1)+t`, column `i*w+j` of the flattened batch is spectrogram cell `[e][f+i][t+j]`. |
| `FeatureExtraction.FlattenBatch` | generate_predictions.gen1.py:135 | The transpose `(0,1,3,2,4)` and `reshape(-1, h*w)` of a batch's view: an `(n*(F-h+1)*(T-w+1)) x (h*w)` matrix. Its meaning is stated by `FlattenRow` (row `(e*(F-h+1)+f)*(T-w+1)+t` is patch `(e, f, t)`) and `FlattenIndex` (its entries are spectrogram cells). |
| `Encoder.EncodeRow` | generate_predictions.gen1.py:137-140 | One flattened patch times `PC` after subtracting the means, then thresholded: `K` features. `FeatureMapThreshold` states what each feature is: the raw activation, or `max(raw - t, 0)`. |
| `Encoder.EncodeRows` | generate_predictions.gen1.py:137-140 | The matrix product and threshold applied to every flattened row, row by row, giving an `n x K` matrix. `FeatureMapThreshold` gives each entry its meaning. |
| `FeatureExtraction.Unflatten` | generate_predictions.gen1.py:144 | `reshape(n, F-h+1, T-w+1, K)` of the encoded rows. `ReshapeRecoversPatches` states that it puts at `(e, f, t)` the encoding of patch `(f, t)` of example `e`. |
| `FeatureExtraction.ReshapeRecoversPatches` | generate_predictions.gen1.py:135-144 | Flattening, encoding every row, and reshaping back to `(batch, F-h+1, T-w+1, K)` puts at `(e, f, t)` the encoding of patch `(f, t)` of example `e` on its own. |
| `Encoder.Activate` | generate_predictions.gen1.py:139-140 | With no threshold, the feature is the raw activation. With threshold `t`, it is at least 0 and at least `raw - t`, and it equals one of the two. |
| `Encoder.ThresholdSemantics` | generate_predictions.gen1.py:139-140 | A soft-thresholded feature is 0 exactly when `raw <= t`. It is `raw - t` when `raw >= t`, and it is monotone in the raw activation. Without a threshold, features are unchanged. |
| `Encoder.MeanPatchActivation` | generate_predictions.gen1.py:137 | A patch equal to the training means has raw activation 0 for every centroid, because the means are subtracted before the product with `PC`. |
| `FeatureExtraction.FeatureMapThreshold` | generate_predictions.gen1.py:137-140 | Each encoded feature of patch `(f, t)` is its raw activation `(row - means) · PC[:, k]` when there is no threshold. With threshold `t` it is `>= 0`, it is 0 exactly when `raw <= t`, and otherwise it is `raw - t`. |
| `FeatureExtraction.ThresholdedFeaturesNonNegative` | generate_predictions.gen1.py:139-148 | With a threshold, every entry of an example's pooled feature vector is `>= 0`. |
| `Pooling.Max` | generate_predictions.gen1.py:117 | The max of a non-empty sequence is one of its elements and is `>=` every element. |
| `Pooling.FreqPool` | generate_predictions.gen1.py:117 | For each time position and centroid, the frequency-pooled value is `>=` the value at every frequency position and equals one of them. |
| `Pooling.TimeMax` | generate_predictions.gen1.py:120-124 | For each centroid, the time max over `[lo, hi)` is `>=` every pooled value in the range and equals one of them. |
| `Pooling.QuadrantSlices` | generate_predictions.gen1.py:121-124 | With `s = T // 4`, the four slices `[k*s, (k+1)*s)` start at 0, lie inside `[0, T)`, and are contiguous and pairwise disjoint. The dropped remainder is `< 4`. Each slice is non-empty exactly when `T >= 4`. |
| `Pooling.PartBounds` | generate_predictions.gen1.py:120-124 | When `s > 0`, the global range and each quadrant range are non-empty and lie inside `[0, T)`. |
| `Pooling.Pool` | generate_predictions.gen1.py:116-127 | The pooled vector of one example has length exactly `5*K`. |
| `Pooling.PartIsWindowMax` | generate_predictions.gen1.py:117-124 | Entry `c` of part `j` is the max of centroid `c` over every frequency position and over the time range of part `j`. |
| `Pooling.PoolLayout` | generate_predictions.gen1.py:116-127 | Entry `j*K + c` of the pooled vector is the max of centroid `c` over all frequency positions and over `[0, T)` for `j = 0`, or `[(j-1)*s, j*s)` for quadrant `j-1`. This is the layout `[global, q0, q1, q2, q3]`. |
| `Pooling.QuadrantBelowGlobal` | generate_predictions.gen1.py:120-124 | Each quadrant max is `<=` the global time max of the same centroid. |
| `Pooling.SummariseBatch` | generate_predictions.gen1.py:116-127 | Summarising fails, with an empty reduction, exactly when there is no frequency position or `T < 4`. Otherwise it gives an `n x 5K` matrix whose row `e` is example `e` pooled on its own. |
| `Tensors.HStack` | generate_predictions.gen1.py:127 | `np.hstack` of the five pooled parts, in order: the first part is the prefix of the result. `HStackIndex` states the full layout: entry `c` of part `j` lands at `j*K + c`. |
| `Tensors.HStackIndex` | generate_predictions.gen1.py:127 | Stacking parts of width `K` side by side gives `|parts|*K` entries. Entry `c` of part `j` lands at `j*K + c`. |
| `FeatureExtraction.ExtractFeatures` | generate_predictions.gen1.py:133-149 | `extract_features` fails with the ambiguous reshape exactly when `h*w == 0`. Otherwise it fails with an empty reduction exactly when pooling meets an empty axis. When it succeeds, row `e` equals the features of example `e` computed alone. |
| `FeatureExtraction.BatchSplitInvariance` | generate_predictions.gen1.py:155-160 | Extracting two batches separately gives the same rows, in the same order, as extracting their concatenation. |
| `Batching.NumBatches` | generate_predictions.gen1.py:153 | The batch count is the ceiling of `N/B`: the batches hold at least `N` rows, one batch fewer would not, and the count is 0 exactly when `N = 0`. |
| `Batching.RowBatch` | generate_predictions.gen1.py:155-160 | Row `r < N` falls in batch `r / B`, which is one of the `ceil(N/B)` batches. |
| `Batching.RowInExactlyOneBatch` | generate_predictions.gen1.py:155-160 | Row `r` lies in the row range of batch `b` exactly when `b = r / B`. Every row is written by exactly one batch. |
| `Batching.BatchesTile` | generate_predictions.gen1.py:155-160 | Batch ranges are non-empty and inside `[0, N)`, and consecutive ranges meet. Every batch but the last holds `B` rows. The last ends at `N` and holds `N - (ceil(N/B)-1)*B` rows, between 1 and `B`. |
| `Batching.WriteRows` | generate_predictions.gen1.py:160 | The slice assignment `features[lo:lo+len(rows)] = rows` overwrites exactly the rows from `lo` on with `rows`, in order. Every other row keeps its value and the matrix keeps its height. |
| `Batching.WriteBatchExtendsPrefix` | generate_predictions.gen1.py:154-160 | Writing batch `[lo, hi)` at row `lo` extends the finished prefix of the feature matrix from `lo` to `hi`. The rows after `hi` stay zero, as `np.zeros` left them. |
| `Batching.RunBatches` | generate_predictions.gen1.py:151-160 | The batch loop fails exactly when there is an example and the geometry cannot be encoded or pooled. Otherwise it yields an `N x 5K` matrix whose row `e` holds the features of input example `e`, in order. The batch size does not appear in the result. |
| `IntervalNormalisation.NormaliseValue` | generate_predictions.gen1.py:167-168 | The normalised value, scaled back by `fmax - fmin` and shifted by `fmin`, is the input value. |
| `IntervalNormalisation.Normalise` | generate_predictions.gen1.py:167-168 | The normalised matrix has the input's shape. Every entry maps back to its input under `x = r*(fmax[c] - fmin[c]) + fmin[c]`. |
| `IntervalNormalisation.UnitIntervalExactlyForBounds` | generate_predictions.gen1.py:167-168 | If `fmin < fmax`, a value maps into `[0, 1]` exactly when it lies in `[fmin, fmax]`. Values below `fmin` map below 0 and values above `fmax` map above 1: there is no clamping. |
| `IntervalNormalisation.StrictlyIncreasing` | generate_predictions.gen1.py:167-168 | If `fmin < fmax`, the map is strictly increasing in both directions, sends `fmin` to 0 and sends `fmax` to 1. |
| `IntervalNormalisation.EmpiricalBoundsGiveUnitInterval` | generate_predictions.gen1.py:167-168 | If a column's bounds enclose every value of that column, as the empirical min and max do, every normalised value of the column lies in `[0, 1]`. |
| `Pipeline.ViewMatchesFlatten` | generate_predictions.gen1.py:100-135 | The buffer cell the strided view reads for `(e,f,i,t,j)` is the entry of the flattened batch at row `(e*(F-h+1)+f)*(T-w+1)+t`, column `i*w+j`. |
| `Pipeline.RunPass` | generate_predictions.gen1.py:93-168 | A pass fails with the first error the script would raise: a negative view extent, then (when there is an example) an ambiguous reshape or an empty reduction. Otherwise row `e` is example `e`'s pooled feature vector, normalised by the trained bounds. |

## Left out

- Data loading, the pickle of results and settings, the command-line check, prints and timing, and writing predictions: these are I/O (generate_predictions.gen1.py:21-61, 192-196, 272-280).
- Decimation (`scipy.signal.decimate`), `specgram`, `log(1 + c*x)` and volume normalisation: these are foreign signal-processing and floating-point library calls. The log-spectrogram tensor is an input of the model.
- Computing `PC = P · centroidsᵀ`: `PC` and the means are opaque trained inputs.
- `LinearSVC` training and `decision_function`: the classifier is external.
- The `del` statements: they free memory and change no value.
- The test pass (generate_predictions.gen1.py:198-264): it is the same computation as the training pass, and `Pipeline.RunPass` models both.
- Floating point: features are `real`, so float32 rounding, NaN and infinities are not modelled. The order of the sum in the matrix product is irrelevant over `real`.
- Pipeline.RunPass: requires `fmin[c] != fmax[c]` for every column. The script divides by zero there and produces infinities or NaN, which reals cannot represent.
- IntervalNormalisation.Normalise: requires `fmin[c] != fmax[c]`, for the same reason.
- Pipeline.RunPass: requires the trained parameters to match the patch geometry (`h*w` means, an `h*w x K` matrix `PC`, and `5*K` bounds). numpy's broadcasting of length-1 means or bounds, and its errors on other mismatches, are not modelled.
- Pipeline.RunPass: a pass with zero examples has no counterpart in the script, which fails at generate_predictions.gen1.py:82 (and :217) when it reads the first clip. The model's outcomes for `N == 0` are its own choice.
- Batching.RunBatches: takes the batch size `B > 0` as a parameter. `Pipeline.RunPass` uses the script's constant 100.
- Batching.NumBatches: computes the ceiling with integers. The script uses floating point, which gives the same value for any example count below 2^53.
- PatchViews.MakePatchView: strides are counted in elements, not bytes. The item size is a common factor.
- Pooling.SummariseBatch: with zero centroids, numpy's behaviour on zero-size outputs is not distinguished. Any reduction over an empty axis is treated as an error.
