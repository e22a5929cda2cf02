/** Row-major index arithmetic shared by the im2col lowering and both layers.

    Every flat buffer in the program is addressed as `r * width + c`; this
    module names that map once and proves that it is a bijection between
    `[0, rows) x [0, width)` and `[0, rows * width)`. */
module Index {

  /** Position of element `(r, c)` of a row-major matrix whose rows hold `width` elements. */
  function Flat(r: int, width: int, c: int): int
  {
    r * width + c
  }

  lemma MulMonotone(a: int, b: int, n: int)
    requires a <= b && 0 <= n
    ensures a * n <= b * n
  {
    assert b * n - a * n == (b - a) * n;
  }

  /** Multiplication of non-negative factors stays non-negative. */
  lemma MulNonNegative(a: int, b: int)
    requires 0 <= a && 0 <= b
    ensures 0 <= a * b
  {
  }

  /** A cell inside the matrix lands inside the buffer. */
  lemma FlatBounds(r: int, rows: int, width: int, c: int)
    requires 0 <= r < rows && 0 <= c < width
    ensures 0 <= Flat(r, width, c) < rows * width
  {
    MulNonNegative(r, width);
    MulMonotone(r + 1, rows, width);
    assert (r + 1) * width == r * width + width;
  }

  /** A whole row inside the matrix ends inside the buffer. */
  lemma RowBounds(r: int, rows: int, width: int)
    requires 0 <= r < rows && 0 <= width
    ensures 0 <= Flat(r, width, 0) && Flat(r, width, width) <= rows * width
  {
    MulNonNegative(r, width);
    MulMonotone(r + 1, rows, width);
    assert (r + 1) * width == r * width + width;
  }

  /** A non-negative factor of a positive product forces the other factor positive. */
  lemma PositiveFactor(a: int, b: int)
    requires 0 <= a && 0 < a * b
    ensures 0 < b
  {
  }

  /** The end of row `r` is the start of row `r + 1`. */
  lemma FlatRowEnd(r: int, width: int)
    ensures Flat(r, width, width) == Flat(r + 1, width, 0)
  {
    assert (r + 1) * width == r * width + width;
  }

  /** Quotient and remainder are determined by any decomposition `k == q * n + r`
      with `0 <= r < n`. */
  lemma DivModUnique(k: int, n: int, q: int, r: int)
    requires 0 < n && 0 <= r < n && k == q * n + r
    ensures k / n == q && k % n == r
  {
    var q' := k / n;
    var r' := k % n;
    assert k == q' * n + r';
    assert (q - q') * n == r' - r;
    if q > q' {
      MulMonotone(1, q - q', n);
      assert false;
    } else if q < q' {
      MulMonotone(1, q' - q, n);
      assert false;
    }
  }

  /** Reading a row-major position back: row `k / width`, column `k % width`. */
  lemma FlatDecode(r: int, width: int, c: int)
    requires 0 < width && 0 <= c < width
    ensures Flat(r, width, c) / width == r
    ensures Flat(r, width, c) % width == c
  {
    DivModUnique(Flat(r, width, c), width, r, c);
  }

  /** Every buffer position is the row-major position of its own row and column. */
  lemma FlatEncode(k: int, width: int)
    requires 0 < width
    ensures Flat(k / width, width, k % width) == k
    ensures 0 <= k % width < width
  {
  }

  /** Distinct cells have distinct positions. */
  lemma FlatInjective(r1: int, c1: int, r2: int, c2: int, width: int)
    requires 0 < width && 0 <= c1 < width && 0 <= c2 < width
    requires Flat(r1, width, c1) == Flat(r2, width, c2)
    ensures r1 == r2 && c1 == c2
  {
    FlatDecode(r1, width, c1);
    FlatDecode(r2, width, c2);
  }

  /** A row-major cell index below `rows * width` splits into a row below `rows`
      and a column below `width`. */
  lemma CellOf(k: int, rows: int, width: int)
    requires 0 <= k < rows * width && 0 <= rows
    ensures 0 < width
    ensures 0 <= k / width < rows && 0 <= k % width < width
    ensures Flat(k / width, width, k % width) == k
  {
    PositiveFactor(rows, width);
    FlatEncode(k, width);
    if k / width >= rows {
      MulMonotone(rows, k / width, width);
      assert false;
    }
  }

  /** The `rows x width` row-major matrix whose cell `(r, c)` is `f(r, c)`. */
  function Tabulate(rows: nat, width: nat, f: (int, int) -> int): (y: seq<int>)
    ensures |y| == rows * width
    ensures forall r, c :: 0 <= r < rows && 0 <= c < width ==> 0 <= Flat(r, width, c) < |y|
    ensures forall r, c {:trigger y[Flat(r, width, c)]} :: 0 <= r < rows && 0 <= c < width ==> y[Flat(r, width, c)] == f(r, c)
    decreases rows
  {
    if rows == 0 then []
    else
      var prev := Tabulate(rows - 1, width, f);
      var last := seq(width, c => f(rows - 1, c));
      FlatRowEnd(rows - 1, width);
      assert (rows - 1) * width + width == rows * width;
      forall r, c | 0 <= r < rows && 0 <= c < width
        ensures 0 <= Flat(r, width, c) < rows * width
        ensures (prev + last)[Flat(r, width, c)] == f(r, c)
      {
        FlatBounds(r, rows, width, c);
        if r < rows - 1 {
          FlatBounds(r, rows - 1, width, c);
        }
      }
      prev + last
  }
}
