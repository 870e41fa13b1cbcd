/** Dense numeric arrays as nested sequences, and the C-order buffer numpy stores them in. */
module Tensors {
  import opened Indexing

  type Matrix = seq<seq<real>>
  type Tensor3 = seq<Matrix>
  type Tensor4 = seq<Tensor3>

  /** m is a rows x cols array. */
  predicate IsMatrix(m: Matrix, rows: nat, cols: nat) {
    |m| == rows && forall r :: 0 <= r < rows ==> |m[r]| == cols
  }

  /** x is an n x rows x cols array. */
  predicate IsTensor3(x: Tensor3, n: nat, rows: nat, cols: nat) {
    |x| == n && forall e :: 0 <= e < n ==> IsMatrix(x[e], rows, cols)
  }

  /** x is an n x a x b x c array. */
  predicate IsTensor4(x: Tensor4, n: nat, a: nat, b: nat, c: nat) {
    |x| == n && forall e :: 0 <= e < n ==> IsTensor3(x[e], a, b, c)
  }

  /** The contiguous C-order buffer holding an n x rows x cols array: position p holds the
      cell whose row-major index is p. */
  function RowMajor3(x: Tensor3, n: nat, rows: nat, cols: nat): seq<real>
    requires IsTensor3(x, n, rows, cols)
  {
    seq(n * rows * cols, p requires 0 <= p < n * rows * cols =>
      PositiveFactors(n, rows, cols);
      Linear3Onto(p, n, rows, cols);
      x[Outer3(p, rows, cols)][Middle3(p, rows, cols)][Inner3(p, cols)])
  }

  /** Cell (e, r, c) sits at buffer position Linear3(e, r, c), inside the buffer. */
  lemma RowMajor3Index(x: Tensor3, n: nat, rows: nat, cols: nat, e: nat, r: nat, c: nat)
    requires IsTensor3(x, n, rows, cols)
    requires e < n && r < rows && c < cols
    ensures |RowMajor3(x, n, rows, cols)| == n * rows * cols
    ensures 0 <= Linear3(e, r, c, rows, cols) < n * rows * cols
    ensures RowMajor3(x, n, rows, cols)[Linear3(e, r, c, rows, cols)] == x[e][r][c]
  {
    Linear3RoundTrip(e, r, c, n, rows, cols);
  }

  /** Concatenation of equally long vectors side by side, as np.hstack does for the rows of
      a batch. */
  function HStack(parts: seq<seq<real>>): (r: seq<real>)
    ensures |parts| > 0 ==> |parts[0]| <= |r| && r[..|parts[0]|] == parts[0]
  {
    if |parts| == 0 then [] else parts[0] + HStack(parts[1..])
  }

  /** Stacking parts of width `width` gives a vector of |parts| * width entries, and entry c
      of part j lands at position j * width + c. */
  lemma {:induction false} HStackIndex(parts: seq<seq<real>>, width: nat, j: nat, c: nat)
    requires forall p :: 0 <= p < |parts| ==> |parts[p]| == width
    requires j < |parts| && c < width
    ensures |HStack(parts)| == |parts| * width
    ensures j * width + c < |HStack(parts)|
    ensures HStack(parts)[j * width + c] == parts[j][c]
    decreases |parts|
  {
    HStackLength(parts, width);
    var rest := parts[1..];
    assert HStack(parts) == parts[0] + HStack(rest);
    if j > 0 {
      assert forall p :: 0 <= p < |rest| ==> |rest[p]| == width;
      HStackIndex(rest, width, j - 1, c);
      var k := (j - 1) * width + c;
      assert j * width + c == width + k;
      assert HStack(parts)[width + k] == HStack(rest)[k];
    }
  }

  /** Stacking parts of width `width` gives a vector of |parts| * width entries. */
  lemma {:induction false} HStackLength(parts: seq<seq<real>>, width: nat)
    requires forall p :: 0 <= p < |parts| ==> |parts[p]| == width
    ensures |HStack(parts)| == |parts| * width
    decreases |parts|
  {
    if |parts| > 0 {
      HStackLength(parts[1..], width);
    }
  }
}
