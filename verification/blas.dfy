/** Exact-arithmetic meaning of the numeric building blocks the layers use:
    the dot product both reference loops accumulate, matrix row and column
    views over flat row-major buffers, and the three BLAS routines the accelerated strategy calls (`sgemm`, `sgemv`,
    `saxpy`), each reduced to the one calling convention the program uses. */
module Blas {
  import opened Index

  /** `a[0]*b[0] + ... + a[n-1]*b[n-1]`, accumulated from index 0 upwards. */
  function Dot(a: seq<int>, b: seq<int>): int
    requires |a| == |b|
    decreases |a|
  {
    if |a| == 0 then 0 else Dot(a[..|a| - 1], b[..|b| - 1]) + a[|a| - 1] * b[|b| - 1]
  }

  /** One step of the accumulation loop `val += a[j] * b[j]`. */
  lemma DotStep(a: seq<int>, b: seq<int>, j: int)
    requires |a| == |b| && 0 <= j < |a|
    ensures Dot(a[..j + 1], b[..j + 1]) == Dot(a[..j], b[..j]) + a[j] * b[j]
  {
    assert a[..j + 1][..j] == a[..j];
    assert b[..j + 1][..j] == b[..j];
  }

  /** Row `i` of the `rows` x `width` row-major matrix stored in `a` from `base` on. */
  function Row(a: seq<int>, base: int, rows: int, width: int, i: int): (r: seq<int>)
    requires 0 <= base && 0 <= width && 0 <= i < rows && base + rows * width <= |a|
    ensures |r| == width
    ensures forall j :: 0 <= j < width ==> 0 <= base + Flat(i, width, j) < |a|
    ensures forall j {:trigger r[j]} :: 0 <= j < width ==> r[j] == a[base + Flat(i, width, j)]
  {
    RowBounds(i, rows, width);
    a[base + Flat(i, width, 0) .. base + Flat(i, width, width)]
  }

  /** Column `j` of the `rows` x `width` row-major matrix stored at the front of `b`. */
  function Column(b: seq<int>, rows: int, width: int, j: int): (r: seq<int>)
    requires 0 <= rows && 0 <= j < width && rows * width <= |b|
    ensures |r| == rows
    ensures forall t :: 0 <= t < rows ==> 0 <= Flat(t, width, j) < rows * width
    ensures forall t {:trigger r[t]} :: 0 <= t < rows ==> r[t] == b[Flat(t, width, j)]
  {
    ColumnInBounds(rows, width, j);
    seq(rows, t requires 0 <= t < rows => b[Flat(t, width, j)])
  }

  lemma ColumnInBounds(rows: int, width: int, j: int)
    requires 0 <= rows && 0 <= j < width
    ensures forall t :: 0 <= t < rows ==> 0 <= Flat(t, width, j) < rows * width
  {
    forall t | 0 <= t < rows
      ensures 0 <= Flat(t, width, j) < rows * width
    {
      FlatBounds(t, rows, width, j);
    }
  }

  /** A column reads only the `rows * width` prefix of its buffer. */
  lemma ColumnPrefix(b: seq<int>, rows: int, width: int, j: int)
    requires 0 <= rows && 0 <= j < width && rows * width <= |b|
    ensures Column(b, rows, width, j) == Column(b[..rows * width], rows, width, j)
  {
  }

  /** `cblas_sgemm` in row-major order, no transposition, `alpha = 1`, `beta = 0`
      and leading dimensions equal to the column counts: the `m x n` product of
      the `m x k` matrix at `a[aOff..]` and the `k x n` matrix at the front of
      `b` overwrites the first `m * n` cells of `c`. */
  function Sgemm(m: int, n: int, k: int, a: seq<int>, aOff: int, b: seq<int>, c: seq<int>): (r: seq<int>)
    requires 0 <= m && 0 <= n && 0 <= k && 0 <= aOff
    requires aOff + m * k <= |a| && k * n <= |b| && m * n <= |c|
    ensures |r| == |c|
    ensures forall i, j :: 0 <= i < m && 0 <= j < n ==> 0 <= Flat(i, n, j) < m * n
    ensures forall i, j {:trigger r[Flat(i, n, j)]} :: 0 <= i < m && 0 <= j < n ==>
              r[Flat(i, n, j)] == Dot(Row(a, aOff, m, k, i), Column(b, k, n, j))
    ensures forall t :: m * n <= t < |c| ==> r[t] == c[t]
  {
    var product := Tabulate(m, n, (i, j) =>
                      if 0 <= i < m && 0 <= j < n then Dot(Row(a, aOff, m, k, i), Column(b, k, n, j)) else 0);
    product + c[m * n..]
  }

  /** `cblas_sgemv` in row-major order, no transposition, `alpha = 1`, `beta = 0`,
      unit increments and leading dimension `n`: the product of the `m x n`
      matrix at `a[aOff..]` with `x[..n]` overwrites the first `m` cells of `y`. */
  function Sgemv(m: int, n: int, a: seq<int>, aOff: int, x: seq<int>, y: seq<int>): (r: seq<int>)
    requires 0 <= m && 0 <= n && 0 <= aOff
    requires aOff + m * n <= |a| && n <= |x| && m <= |y|
    ensures |r| == |y|
    ensures forall i :: 0 <= i < m ==> r[i] == Dot(Row(a, aOff, m, n, i), x[..n])
    ensures forall t :: m <= t < |y| ==> r[t] == y[t]
  {
    seq(|y|, t requires 0 <= t < |y| =>
          if t < m then
            Dot(Row(a, aOff, m, n, t), x[..n])
          else y[t])
  }

  /** Position of element `t` of a BLAS vector that starts at `base` with increment `inc`. */
  function Strided(base: int, inc: int, t: int): int
  {
    base + t * inc
  }

  /** `cblas_saxpy` with a unit increment on `y`: `y[yOff + t] += alpha * x[xOff + t * incx]`
      for `t < n`. An increment of 0 on `x` broadcasts the single value `x[xOff]`. */
  function Saxpy(n: int, alpha: int, x: seq<int>, xOff: int, incx: int, y: seq<int>, yOff: int): (r: seq<int>)
    requires 0 <= n && 0 <= incx && 0 <= xOff && 0 <= yOff && yOff + n <= |y|
    requires 0 < n ==> Strided(xOff, incx, n - 1) < |x|
    ensures |r| == |y|
    ensures forall t :: 0 <= t < n ==> 0 <= Strided(xOff, incx, t) < |x|
    ensures forall k :: yOff <= k < yOff + n ==> r[k] == y[k] + alpha * x[Strided(xOff, incx, k - yOff)]
    ensures forall k :: 0 <= k < |y| && !(yOff <= k < yOff + n) ==> r[k] == y[k]
  {
    StrideInBounds(n, incx, xOff, |x|);
    seq(|y|, k requires 0 <= k < |y| =>
          if yOff <= k < yOff + n then y[k] + alpha * x[Strided(xOff, incx, k - yOff)] else y[k])
  }

  /** Every element a strided read of `n` elements touches lies below its last one. */
  lemma StrideInBounds(n: int, inc: int, base: int, len: int)
    requires 0 <= n && 0 <= inc && 0 <= base
    requires 0 < n ==> Strided(base, inc, n - 1) < len
    ensures forall t :: 0 <= t < n ==> 0 <= Strided(base, inc, t) < len
  {
    forall t | 0 <= t < n
      ensures 0 <= Strided(base, inc, t) < len
    {
      MulNonNegative(t, inc);
      MulMonotone(t, n - 1, inc);
    }
  }
}
