/** The forward pass `main` runs in run-conv.c: the first layer `cc_in` and then
    100 applications of the hidden layer `cc`, each stage lowering the current
    feature map into the column buffer `x2` and writing the layer's output back
    into the activation buffer `x`. Two fixed-size buffers suffice because the
    3x3, stride 1, padding 1 lowering keeps the 28 x 28 shape. */
module ConvNet {
  import opened Index
  import opened Blas
  import opened Im2Col
  import opened ConvLayout
  import opened ConvLayer

  /** Output pixels per channel at the fixed 28 x 28 shape. */
  const Pixels := Height * Width

  /** `x`: `nch * h * w` elements, the largest feature map of the network. */
  const ActivationSize := Channels * Height * Width

  /** `x2`: `nch * h * w * ks * ks` elements, the largest column matrix. */
  const ColumnSize := Channels * Height * Width * KernelSize * KernelSize

  /** The two layers `main` configures. */
  predicate MainConfig(cc: ConvConfig)
  {
    cc == ConvIn || cc == ConvHidden
  }

  /** Both buffers fit every stage: each layer's input planes fit `x`, its column
      matrix fits `x2` (the hidden layer's fills it exactly), and its output fills `x`. */
  lemma MainBuffersFit(cc: ConvConfig)
    requires MainConfig(cc)
    ensures cc.ic * Height * Width <= ActivationSize
    ensures cc.FanIn() * Pixels <= ColumnSize
    ensures cc.oc * Pixels == ActivationSize
    ensures ConvHidden.FanIn() * Pixels == ColumnSize
  {
  }

  /** The 3x3, stride 1, padding 1 lowering maps 28 x 28 to 28 x 28. */
  lemma MainShapeIsFixed(cc: ConvConfig)
    requires MainConfig(cc)
    ensures OutDim(Height, cc.ksize, cc.stride, cc.pad) == Height
    ensures OutDim(Width, cc.ksize, cc.stride, cc.pad) == Width
  {
    SamePaddingKeepsExtent(Height, Padding);
    SamePaddingKeepsExtent(Width, Padding);
  }

  /** What a stage needs: one of the two layers, parameters inside the blob, and an
      activation buffer of the allocated size. */
  predicate StageReady(x: seq<int>, p: seq<int>, cc: ConvConfig)
  {
    MainConfig(cc) && ConvHidden.ParamEnd() <= |p| && |x| == ActivationSize
  }

  /** One stage at the 28 x 28 shape: lower the feature map, then apply the
      reference layer without ReLU to the column matrix. */
  function Stage(x: seq<int>, p: seq<int>, cc: ConvConfig): (y: seq<int>)
    requires StageReady(x, p, cc)
    ensures |y| == ActivationSize
  {
    MainLayout();
    MainBuffersFit(cc);
    MainShapeIsFixed(cc);
    ConvReference(Lower(x, Height, Width, cc).data, p, cc, Pixels, false)
  }

  /** A stage is the convolution of its input feature map: output channel `c` at
      pixel `(h, w)` is the dot product of the channel's weights with the window
      around `(h, w)`, plus the channel's bias. */
  lemma StageCell(x: seq<int>, p: seq<int>, cc: ConvConfig, c: int, h: int, w: int)
    requires StageReady(x, p, cc)
    requires 0 <= c < cc.oc && 0 <= h < Height && 0 <= w < Width
    ensures Lowerable(x, Height, Width, cc) && ParamsFit(cc, |p|)
    ensures 0 <= Flat(c, Pixels, Flat(h, Width, w)) < ActivationSize
    ensures Stage(x, p, cc)[Flat(c, Pixels, Flat(h, Width, w))]
            == Dot(WeightRow(p, cc, c), Window(x, Height, Width, cc, h, w)) + BiasOf(p, cc, c)
  {
    MainLayout();
    MainBuffersFit(cc);
    MainShapeIsFixed(cc);
    var lowered := Lower(x, Height, Width, cc).data;
    LoweredColumn(x, Height, Width, cc, h, w);
    FlatBounds(h, Height, Width, w);
    ConvCell(lowered, p, cc, Pixels, false, c, Flat(h, Width, w));
  }

  /** `n` hidden stages applied to `x`. */
  function Hidden(x: seq<int>, p: seq<int>, n: nat): (y: seq<int>)
    requires |x| == ActivationSize && ConvHidden.ParamEnd() <= |p|
    ensures |y| == ActivationSize
    decreases n
  {
    if n == 0 then x else Stage(Hidden(x, p, n - 1), p, ConvHidden)
  }

  /** The network the program evaluates: the first layer, then 100 hidden stages. */
  function Network(x0: seq<int>, p: seq<int>): (y: seq<int>)
    requires |x0| == ActivationSize && ConvHidden.ParamEnd() <= |p|
    ensures |y| == ActivationSize
  {
    Hidden(Stage(x0, p, ConvIn), p, 100)
  }

  /** One stage of the loop in `main`: `im2col_cpu` into the column buffer, then
      `matmul_conv_org`, or `matmul_conv_opt` with `relu = false`, back into the
      activation buffer. The shape stays 28 x 28 and the new activation buffer is
      exactly the stage's output. */
  method RunStage(x: seq<int>, col: seq<int>, p: seq<int>, cc: ConvConfig, height: int, width: int, optimize: bool)
    returns (x': seq<int>, col': seq<int>, height': int, width': int)
    requires StageReady(x, p, cc) && |col| == ColumnSize
    requires height == Height && width == Width
    ensures height' == Height && width' == Width
    ensures |x'| == ActivationSize && |col'| == ColumnSize
    ensures x' == Stage(x, p, cc)
  {
    MainLayout();
    MainBuffersFit(cc);
    MainShapeIsFixed(cc);
    col', height', width' := Im2ColCpu(col, x, height, width, cc);
    var out := height' * width';
    ghost var lowered := Lower(x, Height, Width, cc).data;
    assert |lowered| == cc.FanIn() * out;
    if optimize {
      x' := ConvOptAsWritten(x, col', p, cc, out, false);
      AsWrittenMatchesReferenceWithoutRelu(x, col', p, cc, out);
    } else {
      x' := MatmulConvOrg(x, col', p, cc, out, false);
    }
    ConvReadsColumnMatrix(col', p, cc, out, false);
    ConvReadsColumnMatrix(lowered, p, cc, out, false);
    assert col'[..cc.FanIn() * out] == lowered[..cc.FanIn() * out];
    assert x' == x'[..cc.oc * out];
  }

  /** The forward pass of `main`, in either strategy: after the first layer and 100
      hidden stages the activation buffer holds the network's output and the shape
      is still 28 x 28. */
  method ConvForward(x0: seq<int>, x2: seq<int>, p: seq<int>, optimize: bool)
    returns (x: seq<int>, height: int, width: int)
    requires |x0| == ActivationSize && |x2| == ColumnSize && ConvHidden.ParamEnd() <= |p|
    ensures height == Height && width == Width
    ensures x == Network(x0, p)
  {
    var col := x2;
    x, col, height, width := RunStage(x0, col, p, ConvIn, Height, Width, optimize);
    var i := 0;
    while i < 100
      invariant 0 <= i <= 100
      invariant height == Height && width == Width
      invariant |col| == ColumnSize
      invariant |x| == ActivationSize && x == Hidden(Stage(x0, p, ConvIn), p, i)
    {
      x, col, height, width := RunStage(x, col, p, ConvHidden, height, width, optimize);
      i := i + 1;
    }
  }

  /** The network reads only the `3 * 28 * 28` input values `main` loads into `x`:
      whatever the rest of the freshly allocated buffer holds does not matter. */
  lemma NetworkReadsOnlyInput(x0: seq<int>, x0': seq<int>, p: seq<int>)
    requires |x0| == ActivationSize && |x0'| == ActivationSize && ConvHidden.ParamEnd() <= |p|
    requires x0[..InChannels * Height * Width] == x0'[..InChannels * Height * Width]
    ensures Network(x0, p) == Network(x0', p)
  {
    MainLayout();
    MainBuffersFit(ConvIn);
    LowerReadsPrefix(x0, Height, Width, ConvIn);
    LowerReadsPrefix(x0', Height, Width, ConvIn);
  }
}
