/** The convolution layer descriptor of run-conv.c and where its parameters sit
    in the flat parameter blob: `oc x (ic*ksize*ksize)` weights from `offset` on,
    followed by `oc` biases when the layer has a bias. */
module ConvLayout {

  /** `ConvConfig`. `bias` keeps the C int flag: any non-zero value means
      "this layer has a bias". */
  datatype ConvConfig = ConvConfig(ksize: int, stride: int, pad: int, ic: int, oc: int, offset: int, bias: int)
  {
    /** What the C code silently relies on: a positive kernel size and stride,
        non-negative channel counts and offset. The padding may be any integer:
        a negative one crops the image, and the lowering still reads inside it. */
    predicate Valid()
    {
      0 < ksize && 0 < stride && 0 <= ic && 0 <= oc && 0 <= offset
    }

    predicate HasBias()
    {
      bias != 0
    }

    /** Length of one weight row, and row count of the column matrix:
        `ic * ksize * ksize` (the C code's `in` and `col_size`). */
    function FanIn(): (n: int)
      ensures Valid() ==> 0 <= n
    {
      ic * ksize * ksize
    }

    /** First bias slot: `b = w + nchannels * in`. */
    function BiasBase(): int
    {
      offset + oc * FanIn()
    }

    /** One past the last blob slot the layer reads. */
    function ParamEnd(): int
    {
      BiasBase() + (if HasBias() then oc else 0)
    }
  }

  /** The layer's parameters lie inside a blob of `len` elements. */
  predicate ParamsFit(cc: ConvConfig, len: int)
  {
    cc.Valid() && cc.ParamEnd() <= len
  }

  // The network `main` runs: a 3-channel 28x28 input, then 3x3 kernels with
  // stride 1 and padding 1 throughout, 64 hidden channels.
  const Height := 28
  const Width := 28
  const InChannels := 3
  const Channels := 64
  const KernelSize := 3
  const Stride := 1
  const Padding := 1

  /** First layer `cc_in`: 3 -> 64 channels, parameters at the front of the blob. */
  const ConvIn := ConvConfig(KernelSize, Stride, Padding, InChannels, Channels, 0, 1)

  /** Hidden layer `cc`, applied 100 times: 64 -> 64 channels, parameters right
      after those of `cc_in`. */
  const ConvHidden := ConvConfig(KernelSize, Stride, Padding, Channels, Channels,
                                 InChannels * Channels * KernelSize * KernelSize + Channels, 1)

  /** The hidden layer's region starts exactly where the first layer's weights and
      biases end, so the two regions are adjacent and disjoint, and together they
      span the 38720 parameters of the two PyTorch layers that wrote the blob
      (3*64*9 + 64 and 64*64*9 + 64). */
  lemma MainLayout()
    ensures ConvIn.Valid() && ConvHidden.Valid()
    ensures ConvIn.offset == 0
    ensures ConvIn.ParamEnd() == ConvHidden.offset
    ensures ConvHidden.ParamEnd() == 38720
    ensures ConvIn.ParamEnd() - ConvIn.offset == 3 * 64 * 9 + 64
    ensures ConvHidden.ParamEnd() - ConvHidden.offset == 64 * 64 * 9 + 64
  {
  }
}
