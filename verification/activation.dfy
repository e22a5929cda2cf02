/** The element-wise ReLU post-steps of both layers, in the reference form
    (`fmax(v, 0)` on the affine value) and in the form the accelerated
    functions actually write (run-conv.c:122-127, run-linear.c:62-67). */
module Activation {

  /** `fmax(v, 0)`: the larger of `v` and zero. */
  function Relu(v: int): (r: int)
    ensures r >= 0 && r >= v
    ensures r == v || r == 0
  {
    if v > 0 then v else 0
  }

  /** The optional activation the reference loops apply to each affine value. */
  function Activate(v: int, relu: bool): (r: int)
    ensures relu ==> r == Relu(v)
    ensures !relu ==> r == v
  {
    if relu then Relu(v) else v
  }

  /** A separate ReLU pass over the first `n` cells of `y`, the rest left alone. */
  function ReluPass(y: seq<int>, n: int): (r: seq<int>)
    requires 0 <= n <= |y|
    ensures |r| == |y|
    ensures forall k :: 0 <= k < n ==> r[k] == Relu(y[k])
    ensures forall k :: n <= k < |y| ==> r[k] == y[k]
  {
    seq(|y|, k requires 0 <= k < |y| => if k < n then Relu(y[k]) else y[k])
  }

  /** The ReLU pass as the accelerated functions write it:
      `y[i] = y[i] > 0 ? x[i] : 0` for `i < n`, which copies the layer's INPUT
      `x[i]` where the activation should keep the output `y[i]`. */
  function ReluPassAsWritten(y: seq<int>, x: seq<int>, n: int): (r: seq<int>)
    requires 0 <= n <= |y| && n <= |x|
    ensures |r| == |y|
    ensures forall k :: 0 <= k < n ==> r[k] == (if y[k] > 0 then x[k] else 0)
    ensures forall k :: n <= k < |y| ==> r[k] == y[k]
  {
    seq(|y|, k requires 0 <= k < |y| => if k < n then (if y[k] > 0 then x[k] else 0) else y[k])
  }
}
