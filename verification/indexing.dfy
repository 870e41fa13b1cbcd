/** Row-major (C order) index arithmetic: how numpy lays out and reshapes contiguous arrays. */
module Indexing {

  /** Linear position of cell (i, j) in a row-major grid whose rows hold `cols` cells. */
  function Linear2(i: int, j: int, cols: int): int {
    i * cols + j
  }

  /** Linear position of cell (a, b, c) in a row-major grid of shape (_, nb, nc). */
  function Linear3(a: int, b: int, c: int, nb: int, nc: int): int {
    Linear2(Linear2(a, b, nb), c, nc)
  }

  /** First coordinate of linear position p in a grid of shape (_, nb, nc). */
  function Outer3(p: int, nb: int, nc: int): int
    requires nb > 0 && nc > 0
  {
    p / nc / nb
  }

  /** Second coordinate of linear position p in a grid of shape (_, nb, nc). */
  function Middle3(p: int, nb: int, nc: int): int
    requires nb > 0 && nc > 0
  {
    p / nc % nb
  }

  /** Third coordinate of linear position p in a grid of shape (_, _, nc). */
  function Inner3(p: int, nc: int): int
    requires nc > 0
  {
    p % nc
  }

  lemma MulAtLeastFactor(a: int, d: int)
    requires a >= 1 && d >= 0
    ensures a * d >= d
  {
    assert a * d == (a - 1) * d + d;
    assert (a - 1) * d >= 0;
  }

  lemma MulStrictlyMonotone(a: int, b: int, d: int)
    requires a < b && d > 0
    ensures a * d < b * d
  {
    MulAtLeastFactor(b - a, d);
    assert b * d - a * d == (b - a) * d;
  }

  /** Euclidean division of q*d + r by d gives back q and r. */
  lemma {:induction false} DivModOfLinear(q: int, r: int, d: int)
    requires d > 0 && 0 <= r < d
    ensures (q * d + r) / d == q
    ensures (q * d + r) % d == r
  {
    var n := q * d + r;
    var q', r' := n / d, n % d;
    assert n == q' * d + r';
    if q > q' {
      MulAtLeastFactor(q - q', d);
      assert false;
    } else if q < q' {
      MulAtLeastFactor(q' - q, d);
      assert false;
    }
  }

  /** A position inside a rows x cols grid decomposes into a row below `rows`. */
  lemma DivBelow(p: int, d: int, k: int)
    requires d > 0 && 0 <= p < k * d
    ensures 0 <= p / d < k
  {
    var q := p / d;
    if q >= k {
      MulAtLeastFactor(q - k + 1, d);
      assert false;
    }
  }

  /** Linear2 of an in-range cell is in range, and division by the row width inverts it. */
  lemma Linear2RoundTrip(i: int, j: int, rows: int, cols: int)
    requires 0 <= i < rows && 0 <= j < cols
    ensures 0 <= Linear2(i, j, cols) < rows * cols
    ensures Linear2(i, j, cols) / cols == i
    ensures Linear2(i, j, cols) % cols == j
  {
    DivModOfLinear(i, j, cols);
    if i < rows - 1 {
      MulStrictlyMonotone(i, rows - 1, cols);
    }
    assert (rows - 1) * cols + cols == rows * cols;
  }

  /** Every position of a rows x cols grid is Linear2 of exactly one in-range cell. */
  lemma Linear2Onto(p: int, rows: int, cols: int)
    requires cols > 0 && 0 <= p < rows * cols
    ensures 0 <= p / cols < rows
    ensures 0 <= p % cols < cols
    ensures Linear2(p / cols, p % cols, cols) == p
  {
    DivBelow(p, cols, rows);
  }

  /** Linear3 of an in-range cell is in range, and Outer3/Middle3/Inner3 invert it. */
  lemma Linear3RoundTrip(a: int, b: int, c: int, na: int, nb: int, nc: int)
    requires 0 <= a < na && 0 <= b < nb && 0 <= c < nc
    ensures 0 <= Linear3(a, b, c, nb, nc) < na * nb * nc
    ensures Outer3(Linear3(a, b, c, nb, nc), nb, nc) == a
    ensures Middle3(Linear3(a, b, c, nb, nc), nb, nc) == b
    ensures Inner3(Linear3(a, b, c, nb, nc), nc) == c
  {
    var ab := Linear2(a, b, nb);
    Linear2RoundTrip(a, b, na, nb);
    Linear2RoundTrip(ab, c, na * nb, nc);
  }

  /** Every position of an na x nb x nc grid is Linear3 of the in-range cell it decomposes into. */
  lemma Linear3Onto(p: int, na: int, nb: int, nc: int)
    requires nb > 0 && nc > 0 && 0 <= p < na * nb * nc
    ensures 0 <= Outer3(p, nb, nc) < na
    ensures 0 <= Middle3(p, nb, nc) < nb
    ensures 0 <= Inner3(p, nc) < nc
    ensures Linear3(Outer3(p, nb, nc), Middle3(p, nb, nc), Inner3(p, nc), nb, nc) == p
  {
    Linear2Onto(p, na * nb, nc);
    Linear2Onto(p / nc, na, nb);
  }

  /** A product of naturals that is positive has positive factors. */
  lemma PositiveFactors(a: int, b: int, c: int)
    requires a >= 0 && b >= 0 && c >= 0 && a * b * c > 0
    ensures a > 0 && b > 0 && c > 0
  {
  }
}
