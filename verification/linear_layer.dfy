/** The fully connected layer of run-linear.c: `xout[i] = sum_j w[i*in + j] * x[j] + b[i]`
    with an optional ReLU, in the reference strategy (`linear_org`) and the
    accelerated one (`linear_opt`: sgemv, a unit-stride saxpy bias add, a ReLU pass). */
module LinearLayer {
  import opened Index
  import opened Blas
  import opened Activation
  import opened Buffer

  /** `LinearConfig`: `out x in` weights stored row-major from `offset` on (row `i`
      holds the weights of output `i`), followed by `out` biases when `bias != 0`. */
  datatype LinearConfig = LinearConfig(inDim: int, outDim: int, offset: int, bias: int)
  {
    /** What the C code silently relies on: non-negative dimensions and offset. */
    predicate Valid()
    {
      0 <= inDim && 0 <= outDim && 0 <= offset
    }

    predicate HasBias()
    {
      bias != 0
    }

    /** First bias slot: `b = w + in * out`. */
    function BiasBase(): int
    {
      offset + inDim * outDim
    }

    /** One past the last blob slot the layer reads. */
    function ParamEnd(): int
    {
      BiasBase() + (if HasBias() then outDim else 0)
    }
  }

  /** What both strategies read: parameters inside the blob `p` and an input of at
      least `in` elements. */
  predicate Shaped(x: seq<int>, p: seq<int>, lc: LinearConfig)
  {
    lc.Valid() && lc.ParamEnd() <= |p| && lc.inDim <= |x|
  }

  /** The weights of output `i`: `w[i*in .. i*in + in]` with `w = p + offset`. */
  function WeightRow(p: seq<int>, lc: LinearConfig, i: int): (r: seq<int>)
    requires lc.Valid() && lc.ParamEnd() <= |p| && 0 <= i < lc.outDim
    ensures |r| == lc.inDim
    ensures forall j :: 0 <= j < lc.inDim ==> lc.offset <= lc.offset + Flat(i, lc.inDim, j) < lc.BiasBase()
    ensures forall j {:trigger r[j]} :: 0 <= j < lc.inDim ==> r[j] == p[lc.offset + Flat(i, lc.inDim, j)]
  {
    RowInRegion(lc, i);
    Row(p, lc.offset, lc.outDim, lc.inDim, i)
  }

  lemma RowInRegion(lc: LinearConfig, i: int)
    requires lc.Valid() && 0 <= i < lc.outDim
    ensures forall j :: 0 <= j < lc.inDim ==> 0 <= Flat(i, lc.inDim, j) < lc.outDim * lc.inDim
  {
    forall j | 0 <= j < lc.inDim
      ensures 0 <= Flat(i, lc.inDim, j) < lc.outDim * lc.inDim
    {
      FlatBounds(i, lc.outDim, lc.inDim, j);
    }
  }

  /** `bias_val`: `b[i]` when the layer has a bias, 0 otherwise. */
  function BiasOf(p: seq<int>, lc: LinearConfig, i: int): int
    requires lc.Valid() && lc.ParamEnd() <= |p| && 0 <= i < lc.outDim
  {
    if lc.HasBias() then p[lc.BiasBase() + i] else 0
  }

  /** The reference layer: output `i` is the activated dot product of weight row `i`
      with the first `in` inputs, plus the bias. */
  function LinearReference(x: seq<int>, p: seq<int>, lc: LinearConfig, relu: bool): (y: seq<int>)
    requires Shaped(x, p, lc)
    ensures |y| == lc.outDim
    ensures forall i {:trigger y[i]} :: 0 <= i < lc.outDim ==>
              y[i] == Activate(Dot(WeightRow(p, lc, i), x[..lc.inDim]) + BiasOf(p, lc, i), relu)
  {
    seq(lc.outDim, i requires 0 <= i < lc.outDim =>
          Activate(Dot(WeightRow(p, lc, i), x[..lc.inDim]) + BiasOf(p, lc, i), relu))
  }

  /** The inner loop of `linear_org`: `val += w[i*in + j] * x[j]` for `j < in`. */
  method AccumulateRow(x: seq<int>, p: seq<int>, lc: LinearConfig, i: int) returns (val: int)
    requires Shaped(x, p, lc) && 0 <= i < lc.outDim
    ensures val == Dot(WeightRow(p, lc, i), x[..lc.inDim])
  {
    var inDim := lc.inDim;
    var w := lc.offset;
    ghost var weights := WeightRow(p, lc, i);
    ghost var input := x[..inDim];
    val := 0;
    var j := 0;
    while j < inDim
      invariant 0 <= j <= inDim
      invariant val == Dot(weights[..j], input[..j])
    {
      DotStep(weights, input, j);
      val := val + p[w + i * inDim + j] * x[j];
      j := j + 1;
    }
    assert weights[..inDim] == weights && input[..inDim] == input;
  }

  /** `linear_org`: every output `i < out` gets the dot product, the bias and the
      optional ReLU; the rest of the destination is left alone. */
  method LinearOrg(xout: seq<int>, x: seq<int>, p: seq<int>, lc: LinearConfig, relu: bool)
    returns (xout': seq<int>)
    requires Shaped(x, p, lc) && lc.outDim <= |xout|
    ensures |xout'| == |xout|
    ensures var y := LinearReference(x, p, lc, relu);
      xout'[..lc.outDim] == y && xout'[lc.outDim..] == xout[lc.outDim..]
  {
    var inDim := lc.inDim;
    var outDim := lc.outDim;
    var b := lc.offset + inDim * outDim;
    ghost var y := LinearReference(x, p, lc, relu);
    xout' := xout;
    var i := 0;
    while i < outDim
      invariant 0 <= i <= outDim
      invariant FilledUpTo(xout', xout, y, i)
    {
      var val := AccumulateRow(x, p, lc, i);
      var biasVal := if lc.bias != 0 then p[b + i] else 0;
      FillStep(xout', xout, y, i);
      xout' := xout'[i := if relu then Relu(val + biasVal) else val + biasVal];
      i := i + 1;
    }
    FillDone(xout', xout, y);
  }

  /** The sgemv and bias steps of `linear_opt`: the affine value of every output. */
  function LinearOptAffine(xout: seq<int>, x: seq<int>, p: seq<int>, lc: LinearConfig): (r: seq<int>)
    requires Shaped(x, p, lc) && lc.outDim <= |xout|
    ensures |r| == |xout|
  {
    var product := Sgemv(lc.outDim, lc.inDim, p, lc.offset, x, xout);
    if lc.HasBias() then Saxpy(lc.outDim, 1, p, lc.BiasBase(), 1, product, 0) else product
  }

  /** `linear_opt` with the ReLU pass as intended: `fmax(v, 0)` over all outputs. */
  function LinearOpt(xout: seq<int>, x: seq<int>, p: seq<int>, lc: LinearConfig, relu: bool): (r: seq<int>)
    requires Shaped(x, p, lc) && lc.outDim <= |xout|
    ensures |r| == |xout|
  {
    var affine := LinearOptAffine(xout, x, p, lc);
    if relu then ReluPass(affine, lc.outDim) else affine
  }

  /** `linear_opt` as written: its ReLU pass stores the input `x[i]` instead of the output. */
  function LinearOptAsWritten(xout: seq<int>, x: seq<int>, p: seq<int>, lc: LinearConfig, relu: bool): (r: seq<int>)
    requires Shaped(x, p, lc) && lc.outDim <= |xout|
    requires relu ==> lc.outDim <= |x|
    ensures |r| == |xout|
  {
    var affine := LinearOptAffine(xout, x, p, lc);
    if relu then ReluPassAsWritten(affine, x, lc.outDim) else affine
  }

  /** Strategy equivalence: with sgemv read as the same dot products, the
      accelerated layer writes exactly the reference output into the first `out`
      cells and leaves the rest of the destination alone. */
  lemma LinearOptMatchesReference(xout: seq<int>, x: seq<int>, p: seq<int>, lc: LinearConfig, relu: bool)
    requires Shaped(x, p, lc) && lc.outDim <= |xout|
    ensures var r := LinearOpt(xout, x, p, lc, relu);
      r[..lc.outDim] == LinearReference(x, p, lc, relu) && r[lc.outDim..] == xout[lc.outDim..]
  {
    var y := LinearReference(x, p, lc, relu);
    var r := LinearOpt(xout, x, p, lc, relu);
    var affine := LinearOptAffine(xout, x, p, lc);
    forall i | 0 <= i < lc.outDim
      ensures r[i] == y[i]
    {
      assert Row(p, lc.offset, lc.outDim, lc.inDim, i) == WeightRow(p, lc, i);
      assert affine[i] == Dot(WeightRow(p, lc, i), x[..lc.inDim]) + BiasOf(p, lc, i);
    }
    assert r[..lc.outDim] == y;
    assert r[lc.outDim..] == xout[lc.outDim..];
  }

  /** The calls `main` makes pass `relu = false`, where the as-written accelerated
      layer agrees with the reference. */
  lemma AsWrittenMatchesReferenceWithoutRelu(xout: seq<int>, x: seq<int>, p: seq<int>, lc: LinearConfig)
    requires Shaped(x, p, lc) && lc.outDim <= |xout|
    ensures var r := LinearOptAsWritten(xout, x, p, lc, false);
      r[..lc.outDim] == LinearReference(x, p, lc, false) && r[lc.outDim..] == xout[lc.outDim..]
  {
    LinearOptMatchesReference(xout, x, p, lc, false);
  }

  /** What the as-written ReLU pass leaves in each output: the input `x[i]` where the
      output without ReLU is positive, and 0 elsewhere. */
  lemma LinearOptAsWrittenCell(xout: seq<int>, x: seq<int>, p: seq<int>, lc: LinearConfig, i: int)
    requires Shaped(x, p, lc) && lc.outDim <= |xout| && lc.outDim <= |x|
    requires 0 <= i < lc.outDim
    ensures var off := LinearReference(x, p, lc, false);
      LinearOptAsWritten(xout, x, p, lc, true)[i] == (if off[i] > 0 then x[i] else 0)
  {
    LinearOptMatchesReference(xout, x, p, lc, false);
    var affine := LinearOptAffine(xout, x, p, lc);
    assert affine[i] == affine[..lc.outDim][i];
  }

  /** With ReLU on, the as-written accelerated layer stores the input where the
      output belongs: every output whose value is positive holds the input `x[i]`,
      while the reference holds the value itself. The two differ whenever `x[i]` is
      not that value; one input, one output, weight 3 and input 2 is one such layer
      (reference 6, as written 2). */
  lemma LinearOptCopiesInput(xout: seq<int>, x: seq<int>, p: seq<int>, lc: LinearConfig, i: int)
    requires Shaped(x, p, lc) && lc.outDim <= |xout| && lc.outDim <= |x|
    requires 0 <= i < lc.outDim && LinearReference(x, p, lc, false)[i] > 0
    ensures LinearOptAsWritten(xout, x, p, lc, true)[i] == x[i]
    ensures LinearReference(x, p, lc, true)[i] == LinearReference(x, p, lc, false)[i]
  {
    LinearOptAsWrittenCell(xout, x, p, lc, i);
    LinearReluLaw(x, p, lc);
  }

  /** ReLU law: with ReLU on, every output is `max(v, 0) >= 0` of the output `v`
      the same layer produces with ReLU off. */
  lemma LinearReluLaw(x: seq<int>, p: seq<int>, lc: LinearConfig)
    requires Shaped(x, p, lc)
    ensures var on := LinearReference(x, p, lc, true);
      var off := LinearReference(x, p, lc, false);
      |on| == |off| && forall i :: 0 <= i < |on| ==> on[i] == Relu(off[i]) && on[i] >= 0
  {
  }

  /** The blob with the layer's bias slots replaced by `out` zeros (and nothing after). */
  function ZeroBias(p: seq<int>, lc: LinearConfig): (q: seq<int>)
    requires 0 <= lc.BiasBase() <= |p| && 0 <= lc.outDim
    ensures |q| == lc.BiasBase() + lc.outDim
    ensures q[..lc.BiasBase()] == p[..lc.BiasBase()]
    ensures forall t :: lc.BiasBase() <= t < |q| ==> q[t] == 0
  {
    p[..lc.BiasBase()] + seq(lc.outDim, _ => 0)
  }

  /** Bias-off law: a layer without bias computes what the same layer computes
      with a bias of all zeros. */
  lemma LinearBiasOffLaw(x: seq<int>, p: seq<int>, lc: LinearConfig, relu: bool)
    requires Shaped(x, p, lc) && !lc.HasBias()
    ensures Shaped(x, ZeroBias(p, lc), lc.(bias := 1))
    ensures LinearReference(x, p, lc, relu) == LinearReference(x, ZeroBias(p, lc), lc.(bias := 1), relu)
  {
    var q := ZeroBias(p, lc);
    var lc1 := lc.(bias := 1);
    var y := LinearReference(x, p, lc, relu);
    var y1 := LinearReference(x, q, lc1, relu);
    forall i | 0 <= i < lc.outDim
      ensures y[i] == y1[i]
    {
      var wp, wq := WeightRow(p, lc, i), WeightRow(q, lc1, i);
      forall j | 0 <= j < lc.inDim
        ensures wp[j] == wq[j]
      {
        assert q[..lc.BiasBase()][lc.offset + Flat(i, lc.inDim, j)] == p[..lc.BiasBase()][lc.offset + Flat(i, lc.inDim, j)];
      }
      assert wp == wq;
    }
  }

  /** The layer reads nothing of the blob outside `[offset, ParamEnd())` and nothing
      of the input beyond its first `in` elements. */
  lemma LinearReadsOnlyItsRegion(x: seq<int>, x': seq<int>, p: seq<int>, q: seq<int>, lc: LinearConfig, relu: bool)
    requires Shaped(x, p, lc) && Shaped(x', q, lc)
    requires forall t :: lc.offset <= t < lc.ParamEnd() ==> p[t] == q[t]
    requires x[..lc.inDim] == x'[..lc.inDim]
    ensures LinearReference(x, p, lc, relu) == LinearReference(x', q, lc, relu)
  {
    var yp := LinearReference(x, p, lc, relu);
    var yq := LinearReference(x', q, lc, relu);
    forall i | 0 <= i < lc.outDim
      ensures yp[i] == yq[i]
    {
      assert WeightRow(p, lc, i) == WeightRow(q, lc, i);
    }
  }

  /** The layer `main` runs: 4096 -> 4096 with a bias, parameters at the front of
      the blob, which it reads up to `4096*4096 + 4096`. */
  const Dim := 4096
  const MainLayer := LinearConfig(Dim, Dim, 0, 1)

  lemma MainLinearLayout()
    ensures MainLayer.Valid() && MainLayer.HasBias()
    ensures MainLayer.offset == 0 && MainLayer.ParamEnd() == 4096 * 4096 + 4096
  {
  }
}
