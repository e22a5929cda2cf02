/** Destination buffers that a loop overwrites front to back, one cell per step. */
module Buffer {

  /** `xs` is `dest` with its first `n` cells replaced by the first `n` cells of `y`. */
  predicate FilledUpTo(xs: seq<int>, dest: seq<int>, y: seq<int>, n: int)
  {
    && |xs| == |dest| && 0 <= n <= |y| <= |dest|
    && (forall k :: 0 <= k < n ==> xs[k] == y[k])
    && (forall k :: n <= k < |dest| ==> xs[k] == dest[k])
  }

  /** Storing `y[n]` at position `n` extends the filled prefix by one cell. */
  lemma FillStep(xs: seq<int>, dest: seq<int>, y: seq<int>, n: int)
    requires FilledUpTo(xs, dest, y, n) && n < |y|
    ensures FilledUpTo(xs[n := y[n]], dest, y, n + 1)
  {
  }

  /** Once all of `y` is stored, the buffer is `y` followed by the rest of `dest`. */
  lemma FillDone(xs: seq<int>, dest: seq<int>, y: seq<int>)
    requires FilledUpTo(xs, dest, y, |y|)
    ensures xs[..|y|] == y && xs[|y|..] == dest[|y|..]
  {
    assert xs[..|y|] == y;
    assert xs[|y|..] == dest[|y|..];
  }
}
