/** The convolution layer's affine transform over a lowered column matrix
    (run-conv.c): `xout[c*N + i] = sum_j w[c*in + j] * x[j*N + i] + b[c]`, then an
    optional ReLU, in the reference strategy (`matmul_conv_org`) and the
    accelerated one (`matmul_conv_opt`: sgemm, a bias broadcast per row, a ReLU pass). */
module ConvLayer {
  import opened Index
  import opened Blas
  import opened Activation
  import opened ConvLayout
  import opened Buffer

  /** What both strategies read: a descriptor whose parameters lie in the blob `p`,
      `out >= 0` output pixels, and a column matrix of `FanIn() x out` at the front of `x`. */
  predicate Shaped(x: seq<int>, p: seq<int>, cc: ConvConfig, out: int)
  {
    ParamsFit(cc, |p|) && 0 <= out && cc.FanIn() * out <= |x|
  }

  /** Weights of output channel `c`: `w[c*in .. c*in + in]` with `w = p + offset`. */
  function WeightRow(p: seq<int>, cc: ConvConfig, c: int): (r: seq<int>)
    requires ParamsFit(cc, |p|) && 0 <= c < cc.oc
    ensures |r| == cc.FanIn()
    ensures forall j :: 0 <= j < cc.FanIn() ==> cc.offset <= cc.offset + Flat(c, cc.FanIn(), j) < cc.BiasBase()
    ensures forall j {:trigger r[j]} :: 0 <= j < cc.FanIn() ==> r[j] == p[cc.offset + Flat(c, cc.FanIn(), j)]
  {
    RowInRegion(cc, c);
    Row(p, cc.offset, cc.oc, cc.FanIn(), c)
  }

  lemma RowInRegion(cc: ConvConfig, c: int)
    requires cc.Valid() && 0 <= c < cc.oc
    ensures forall j :: 0 <= j < cc.FanIn() ==> 0 <= Flat(c, cc.FanIn(), j) < cc.oc * cc.FanIn()
  {
    forall j | 0 <= j < cc.FanIn()
      ensures 0 <= Flat(c, cc.FanIn(), j) < cc.oc * cc.FanIn()
    {
      FlatBounds(c, cc.oc, cc.FanIn(), j);
    }
  }

  /** `bias_val`: `b[c]` when the layer has a bias, 0 otherwise. */
  function BiasOf(p: seq<int>, cc: ConvConfig, c: int): int
    requires ParamsFit(cc, |p|) && 0 <= c < cc.oc
  {
    if cc.HasBias() then p[cc.BiasBase() + c] else 0
  }

  /** The reference convolution: output channel `c` at pixel `i` is the activated
      dot product of weight row `c` with column `i` of the matrix, plus the bias. */
  function ConvReference(x: seq<int>, p: seq<int>, cc: ConvConfig, out: int, relu: bool): (y: seq<int>)
    requires Shaped(x, p, cc, out)
    ensures |y| == cc.oc * out
    ensures forall c, i :: 0 <= c < cc.oc && 0 <= i < out ==> 0 <= Flat(c, out, i) < |y|
    ensures forall c, i {:trigger y[Flat(c, out, i)]} :: 0 <= c < cc.oc && 0 <= i < out ==>
              y[Flat(c, out, i)] == Activate(Dot(WeightRow(p, cc, c), Column(x, cc.FanIn(), out, i)) + BiasOf(p, cc, c), relu)
  {
    Tabulate(cc.oc, out, (c, i) =>
      if 0 <= c < cc.oc && 0 <= i < out
      then Activate(Dot(WeightRow(p, cc, c), Column(x, cc.FanIn(), out, i)) + BiasOf(p, cc, c), relu)
      else 0)
  }

  /** Output cell `(c, i)` of the reference, with both of its reads spelled out. */
  lemma ConvCell(x: seq<int>, p: seq<int>, cc: ConvConfig, out: int, relu: bool, c: int, i: int)
    requires Shaped(x, p, cc, out) && 0 <= c < cc.oc && 0 <= i < out
    ensures 0 <= Flat(c, out, i) < cc.oc * out
    ensures ConvReference(x, p, cc, out, relu)[Flat(c, out, i)]
            == Activate(Dot(WeightRow(p, cc, c), Column(x, cc.FanIn(), out, i)) + BiasOf(p, cc, c), relu)
  {
    FlatBounds(c, cc.oc, out, i);
  }

  /** The innermost loop of `matmul_conv_org`: `val += w[c*in + j] * x[j*out + i]`
      for `j < in`, which is the dot product of weight row `c` with column `i`. */
  method AccumulateCell(x: seq<int>, p: seq<int>, cc: ConvConfig, out: int, c: int, i: int)
    returns (val: int)
    requires Shaped(x, p, cc, out) && 0 <= c < cc.oc && 0 <= i < out
    ensures val == Dot(WeightRow(p, cc, c), Column(x, cc.FanIn(), out, i))
  {
    var fanIn := cc.ic * cc.ksize * cc.ksize;
    var w := cc.offset;
    ghost var weights := WeightRow(p, cc, c);
    ghost var column := Column(x, fanIn, out, i);
    val := 0;
    var j := 0;
    while j < fanIn
      invariant 0 <= j <= fanIn
      invariant val == Dot(weights[..j], column[..j])
    {
      DotStep(weights, column, j);
      val := val + p[w + c * fanIn + j] * x[j * out + i];
      j := j + 1;
    }
    assert weights[..fanIn] == weights && column[..fanIn] == column;
  }

  /** The body of the two outer loops of `matmul_conv_org`: the accumulated dot
      product plus `bias_val`, through the optional ReLU, is the reference cell. */
  method OutputCell(x: seq<int>, p: seq<int>, cc: ConvConfig, out: int, relu: bool, c: int, i: int)
    returns (v: int)
    requires Shaped(x, p, cc, out) && 0 <= c < cc.oc && 0 <= i < out
    ensures 0 <= Flat(c, out, i) < cc.oc * out
    ensures v == ConvReference(x, p, cc, out, relu)[Flat(c, out, i)]
  {
    ConvCell(x, p, cc, out, relu, c, i);
    var val := AccumulateCell(x, p, cc, out, c, i);
    var biasVal := if cc.bias != 0 then p[cc.offset + cc.oc * (cc.ic * cc.ksize * cc.ksize) + c] else 0;
    v := if relu then Relu(val + biasVal) else val + biasVal;
  }

  /** `matmul_conv_org`: for every output channel `c` and pixel `i`, accumulate
      the dot product, add the bias and apply the optional ReLU. Only the first
      `oc * out` cells of the destination are written, each exactly once and in order. */
  method MatmulConvOrg(xout: seq<int>, x: seq<int>, p: seq<int>, cc: ConvConfig, out: int, relu: bool)
    returns (xout': seq<int>)
    requires Shaped(x, p, cc, out) && cc.oc * out <= |xout|
    ensures |xout'| == |xout|
    ensures var y := ConvReference(x, p, cc, out, relu);
      |y| <= |xout| && xout'[..|y|] == y && xout'[|y|..] == xout[|y|..]
  {
    var nchannels := cc.oc;
    ghost var y := ConvReference(x, p, cc, out, relu);

    xout' := xout;
    ghost var written := 0;
    var c := 0;
    while c < nchannels
      invariant 0 <= c <= nchannels
      invariant written == Flat(c, out, 0)
      invariant FilledUpTo(xout', xout, y, written)
    {
      var i := 0;
      while i < out
        invariant 0 <= i <= out
        invariant written == Flat(c, out, i)
        invariant FilledUpTo(xout', xout, y, written)
      {
        var v := OutputCell(x, p, cc, out, relu, c, i);
        FillStep(xout', xout, y, written);
        xout' := xout'[c * out + i := v];
        written := written + 1;
        i := i + 1;
      }
      FlatRowEnd(c, out);
      c := c + 1;
    }
    assert written == |y|;
    FillDone(xout', xout, y);
  }

  /** The bias step of `matmul_conv_opt`: for each of the first `rows` output
      channels `c`, `saxpy` with x-increment 0 adds the single value `b[c]`
      (stored at `p[bBase + c]`) to all `out` cells of row `c`. */
  function AddBiasRows(y: seq<int>, p: seq<int>, bBase: int, rows: int, out: int): (r: seq<int>)
    requires 0 <= rows && 0 <= out && 0 <= bBase && bBase + rows <= |p| && rows * out <= |y|
    ensures |r| == |y|
    ensures forall c, i :: 0 <= c < rows && 0 <= i < out ==> 0 <= Flat(c, out, i) < rows * out
    ensures forall c, i {:trigger r[Flat(c, out, i)]} :: 0 <= c < rows && 0 <= i < out ==> r[Flat(c, out, i)] == y[Flat(c, out, i)] + p[bBase + c]
    ensures forall t :: rows * out <= t < |y| ==> r[t] == y[t]
    decreases rows
  {
    if rows == 0 then y
    else
      var prev := AddBiasRows(y, p, bBase, rows - 1, out);
      MulNonNegative(rows - 1, out);
      FlatRowEnd(rows - 1, out);
      var r := Saxpy(out, 1, p, bBase + (rows - 1), 0, prev, Flat(rows - 1, out, 0));
      assert forall c, i :: 0 <= c < rows && 0 <= i < out ==>
               0 <= Flat(c, out, i) < rows * out && r[Flat(c, out, i)] == y[Flat(c, out, i)] + p[bBase + c] by {
        forall c, i | 0 <= c < rows && 0 <= i < out
          ensures 0 <= Flat(c, out, i) < rows * out
          ensures r[Flat(c, out, i)] == y[Flat(c, out, i)] + p[bBase + c]
        {
          FlatBounds(c, rows, out, i);
          if c < rows - 1 {
            FlatBounds(c, rows - 1, out, i);
          }
        }
      }
      r
  }

  /** The sgemm and bias steps of `matmul_conv_opt`: the affine value of every
      output cell, before any ReLU. */
  function ConvOptAffine(xout: seq<int>, x: seq<int>, p: seq<int>, cc: ConvConfig, out: int): (r: seq<int>)
    requires Shaped(x, p, cc, out) && cc.oc * out <= |xout|
    ensures |r| == |xout|
  {
    var product := Sgemm(cc.oc, out, cc.FanIn(), p, cc.offset, x, xout);
    if cc.HasBias() then AddBiasRows(product, p, cc.BiasBase(), cc.oc, out) else product
  }

  /** `matmul_conv_opt` with the ReLU pass as intended: `fmax(v, 0)` over all
      `oc * out` output cells. */
  function ConvOpt(xout: seq<int>, x: seq<int>, p: seq<int>, cc: ConvConfig, out: int, relu: bool): (r: seq<int>)
    requires Shaped(x, p, cc, out) && cc.oc * out <= |xout|
    ensures |r| == |xout|
  {
    var affine := ConvOptAffine(xout, x, p, cc, out);
    if relu then ReluPass(affine, cc.oc * out) else affine
  }

  /** `matmul_conv_opt` as written: its ReLU pass covers only the first `out`
      cells and stores the column matrix's `x[i]` instead of the output. */
  function ConvOptAsWritten(xout: seq<int>, x: seq<int>, p: seq<int>, cc: ConvConfig, out: int, relu: bool): (r: seq<int>)
    requires Shaped(x, p, cc, out) && cc.oc * out <= |xout|
    requires relu ==> out <= |x| && out <= |xout|
    ensures |r| == |xout|
  {
    var affine := ConvOptAffine(xout, x, p, cc, out);
    if relu then ReluPassAsWritten(affine, x, out) else affine
  }

  /** Strategy equivalence: with sgemm read as the same dot products, the
      accelerated layer writes exactly the reference output into the first
      `oc * out` cells and leaves the rest of the destination alone, with or
      without bias and with or without ReLU. */
  lemma ConvOptMatchesReference(xout: seq<int>, x: seq<int>, p: seq<int>, cc: ConvConfig, out: int, relu: bool)
    requires Shaped(x, p, cc, out) && cc.oc * out <= |xout|
    ensures var y := ConvReference(x, p, cc, out, relu);
      var r := ConvOpt(xout, x, p, cc, out, relu);
      |y| <= |r| && r[..|y|] == y && r[|y|..] == xout[|y|..]
  {
    var y := ConvReference(x, p, cc, out, relu);
    var r := ConvOpt(xout, x, p, cc, out, relu);
    var product := Sgemm(cc.oc, out, cc.FanIn(), p, cc.offset, x, xout);
    var affine := ConvOptAffine(xout, x, p, cc, out);
    forall k | 0 <= k < |y|
      ensures r[k] == y[k]
    {
      CellOf(k, cc.oc, out);
      var c, i := k / out, k % out;
      ConvCell(x, p, cc, out, relu, c, i);
      assert Row(p, cc.offset, cc.oc, cc.FanIn(), c) == WeightRow(p, cc, c);
      assert affine[k] == Dot(WeightRow(p, cc, c), Column(x, cc.FanIn(), out, i)) + BiasOf(p, cc, c);
    }
    forall k | |y| <= k < |r|
      ensures r[k] == xout[k]
    {
    }
    assert r[..|y|] == y;
    assert r[|y|..] == xout[|y|..];
  }

  /** The calls `main` makes pass `relu = false`, where the as-written
      accelerated layer agrees with the reference. */
  lemma AsWrittenMatchesReferenceWithoutRelu(xout: seq<int>, x: seq<int>, p: seq<int>, cc: ConvConfig, out: int)
    requires Shaped(x, p, cc, out) && cc.oc * out <= |xout|
    ensures var y := ConvReference(x, p, cc, out, false);
      var r := ConvOptAsWritten(xout, x, p, cc, out, false);
      |y| <= |r| && r[..|y|] == y && r[|y|..] == xout[|y|..]
  {
    ConvOptMatchesReference(xout, x, p, cc, out, false);
  }

  /** What the as-written ReLU pass leaves in each output cell, in terms of the
      layer's output without ReLU: the first `out` cells hold the column matrix's
      `x[k]` where the output is positive and 0 elsewhere; the remaining cells keep
      the output, negative values included. */
  lemma ConvOptAsWrittenCell(xout: seq<int>, x: seq<int>, p: seq<int>, cc: ConvConfig, out: int, k: int)
    requires Shaped(x, p, cc, out) && cc.oc * out <= |xout| && out <= |x| && out <= |xout|
    requires 0 <= k < cc.oc * out
    ensures var off := ConvReference(x, p, cc, out, false);
      var r := ConvOptAsWritten(xout, x, p, cc, out, true);
      && |off| == cc.oc * out && |r| == |xout|
      && r[k] == (if k < out then (if off[k] > 0 then x[k] else 0) else off[k])
  {
    ConvOptMatchesReference(xout, x, p, cc, out, false);
    var off := ConvReference(x, p, cc, out, false);
    var affine := ConvOptAffine(xout, x, p, cc, out);
    assert affine[k] == affine[..|off|][k] == off[k];
  }

  /** With ReLU on, the as-written accelerated layer stores the input where the
      output belongs: in every cell `k < out` whose output is positive it holds the
      column matrix's `x[k]`, while the reference holds the output itself. The two
      differ whenever `x[k]` is not that output; a 1x1 kernel with weight 3 on the
      input 2 is one such layer (reference 6, as written 2). */
  lemma ConvOptCopiesInput(xout: seq<int>, x: seq<int>, p: seq<int>, cc: ConvConfig, out: int, k: int)
    requires Shaped(x, p, cc, out) && cc.oc * out <= |xout| && out <= |x| && out <= |xout|
    requires 0 <= k < out && k < cc.oc * out
    requires ConvReference(x, p, cc, out, false)[k] > 0
    ensures ConvOptAsWritten(xout, x, p, cc, out, true)[k] == x[k]
    ensures ConvReference(x, p, cc, out, true)[k] == ConvReference(x, p, cc, out, false)[k]
  {
    ConvOptAsWrittenCell(xout, x, p, cc, out, k);
    ConvReluLaw(x, p, cc, out);
  }

  /** With ReLU on, the as-written accelerated layer leaves every output channel
      after the first unrectified: a cell `k >= out` whose output is negative stays
      negative, where the reference holds 0. Two output channels with weights 3
      and -1 on the input 2 show it (reference 0, as written -2). */
  lemma ConvOptSkipsLaterChannels(xout: seq<int>, x: seq<int>, p: seq<int>, cc: ConvConfig, out: int, k: int)
    requires Shaped(x, p, cc, out) && cc.oc * out <= |xout| && out <= |x| && out <= |xout|
    requires out <= k < cc.oc * out
    requires ConvReference(x, p, cc, out, false)[k] < 0
    ensures ConvOptAsWritten(xout, x, p, cc, out, true)[k] == ConvReference(x, p, cc, out, false)[k] < 0
    ensures ConvReference(x, p, cc, out, true)[k] == 0
  {
    ConvOptAsWrittenCell(xout, x, p, cc, out, k);
    ConvReluLaw(x, p, cc, out);
  }

  /** ReLU law: with ReLU on, every output is `max(v, 0) >= 0` of the output `v`
      the same layer produces with ReLU off. */
  lemma ConvReluLaw(x: seq<int>, p: seq<int>, cc: ConvConfig, out: int)
    requires Shaped(x, p, cc, out)
    ensures var on := ConvReference(x, p, cc, out, true);
      var off := ConvReference(x, p, cc, out, false);
      |on| == |off| && forall k :: 0 <= k < |on| ==> on[k] == Relu(off[k]) && on[k] >= 0
  {
    var on := ConvReference(x, p, cc, out, true);
    var off := ConvReference(x, p, cc, out, false);
    forall k | 0 <= k < |on|
      ensures on[k] == Relu(off[k])
    {
      CellOf(k, cc.oc, out);
      ConvCell(x, p, cc, out, true, k / out, k % out);
      ConvCell(x, p, cc, out, false, k / out, k % out);
    }
  }

  /** The blob with the layer's bias slots replaced by `oc` zeros (and nothing after). */
  function ZeroBias(p: seq<int>, cc: ConvConfig): (q: seq<int>)
    requires 0 <= cc.BiasBase() <= |p| && 0 <= cc.oc
    ensures |q| == cc.BiasBase() + cc.oc
    ensures q[..cc.BiasBase()] == p[..cc.BiasBase()]
    ensures forall t :: cc.BiasBase() <= t < |q| ==> q[t] == 0
  {
    p[..cc.BiasBase()] + seq(cc.oc, _ => 0)
  }

  /** Bias-off law: a layer without bias computes what the same layer computes
      with a bias of all zeros. */
  lemma ConvBiasOffLaw(x: seq<int>, p: seq<int>, cc: ConvConfig, out: int, relu: bool)
    requires Shaped(x, p, cc, out) && !cc.HasBias()
    ensures Shaped(x, ZeroBias(p, cc), cc.(bias := 1), out)
    ensures ConvReference(x, p, cc, out, relu) == ConvReference(x, ZeroBias(p, cc), cc.(bias := 1), out, relu)
  {
    var q := ZeroBias(p, cc);
    var cc1 := cc.(bias := 1);
    var y := ConvReference(x, p, cc, out, relu);
    var y1 := ConvReference(x, q, cc1, out, relu);
    forall k | 0 <= k < |y|
      ensures y[k] == y1[k]
    {
      CellOf(k, cc.oc, out);
      var c, i := k / out, k % out;
      ConvCell(x, p, cc, out, relu, c, i);
      ConvCell(x, q, cc1, out, relu, c, i);
      ZeroBiasRow(p, cc, c);
    }
  }

  /** Channel `c` of the zero-bias blob has the original weights and bias 0. */
  lemma ZeroBiasRow(p: seq<int>, cc: ConvConfig, c: int)
    requires ParamsFit(cc, |p|) && !cc.HasBias() && 0 <= c < cc.oc
    ensures ParamsFit(cc.(bias := 1), |ZeroBias(p, cc)|)
    ensures WeightRow(p, cc, c) == WeightRow(ZeroBias(p, cc), cc.(bias := 1), c)
    ensures BiasOf(ZeroBias(p, cc), cc.(bias := 1), c) == BiasOf(p, cc, c)
  {
    var q := ZeroBias(p, cc);
    var cc1 := cc.(bias := 1);
    var wp, wq := WeightRow(p, cc, c), WeightRow(q, cc1, c);
    forall j | 0 <= j < cc.FanIn()
      ensures wp[j] == wq[j]
    {
      assert q[..cc.BiasBase()][cc.offset + Flat(c, cc.FanIn(), j)] == p[..cc.BiasBase()][cc.offset + Flat(c, cc.FanIn(), j)];
    }
  }

  /** The layer reads nothing of the blob outside its own region
      `[offset, ParamEnd())`: blobs that agree there give the same output. */
  lemma ConvReadsOnlyItsRegion(x: seq<int>, p: seq<int>, q: seq<int>, cc: ConvConfig, out: int, relu: bool)
    requires Shaped(x, p, cc, out) && Shaped(x, q, cc, out)
    requires forall t :: cc.offset <= t < cc.ParamEnd() ==> p[t] == q[t]
    ensures ConvReference(x, p, cc, out, relu) == ConvReference(x, q, cc, out, relu)
  {
    var yp := ConvReference(x, p, cc, out, relu);
    var yq := ConvReference(x, q, cc, out, relu);
    forall k | 0 <= k < |yp|
      ensures yp[k] == yq[k]
    {
      CellOf(k, cc.oc, out);
      var c, i := k / out, k % out;
      ConvCell(x, p, cc, out, relu, c, i);
      ConvCell(x, q, cc, out, relu, c, i);
      RegionAgrees(p, q, cc, c);
    }
  }

  /** Blobs that agree on the layer's region give channel `c` the same weights and bias. */
  lemma RegionAgrees(p: seq<int>, q: seq<int>, cc: ConvConfig, c: int)
    requires ParamsFit(cc, |p|) && ParamsFit(cc, |q|) && 0 <= c < cc.oc
    requires forall t :: cc.offset <= t < cc.ParamEnd() ==> p[t] == q[t]
    ensures WeightRow(p, cc, c) == WeightRow(q, cc, c) && BiasOf(p, cc, c) == BiasOf(q, cc, c)
  {
    var wp, wq := WeightRow(p, cc, c), WeightRow(q, cc, c);
    assert forall j :: 0 <= j < cc.FanIn() ==> wp[j] == wq[j];
  }

  /** The layer reads only the `FanIn() * out` cells of the column matrix. */
  lemma ConvReadsColumnMatrix(x: seq<int>, p: seq<int>, cc: ConvConfig, out: int, relu: bool)
    requires Shaped(x, p, cc, out)
    ensures Shaped(x[..cc.FanIn() * out], p, cc, out)
    ensures ConvReference(x, p, cc, out, relu) == ConvReference(x[..cc.FanIn() * out], p, cc, out, relu)
  {
    var x' := x[..cc.FanIn() * out];
    var y := ConvReference(x, p, cc, out, relu);
    var y' := ConvReference(x', p, cc, out, relu);
    forall k | 0 <= k < |y|
      ensures y[k] == y'[k]
    {
      CellOf(k, cc.oc, out);
      var c, i := k / out, k % out;
      ConvCell(x, p, cc, out, relu, c, i);
      ConvCell(x', p, cc, out, relu, c, i);
      ColumnPrefix(x, cc.FanIn(), out, i);
    }
  }
}
