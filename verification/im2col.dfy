/** The im2col lowering of run-conv.c: a `(C, H, W)` feature map becomes a
    `(C*K*K, OH*OW)` column matrix whose column `h*OW + w` holds the K x K
    window, over every channel, that the convolution multiplies at output
    pixel `(h, w)`. Row `c` of the matrix is the kernel tap
    `(channel, kh, kw)` with `c == (channel*K + kh)*K + kw`; taps that fall
    into the padding read as 0. */
module Im2Col {
  import opened Index
  import opened Blas
  import opened ConvLayout

  /** C's `/` on `int`: truncation toward zero (Dafny's `/` is Euclidean). The
      remainder `a - q*b` takes the sign of `a` and is smaller than `b` in size. */
  function CDiv(a: int, b: int): (q: int)
    requires 0 < b
    ensures 0 <= a ==> 0 <= a - q * b < b
    ensures a < 0 ==> -b < a - q * b <= 0
  {
    if 0 <= a then a / b else -((-a) / b)
  }

  /** Output extent of one spatial dimension: `(n + 2*pad - k) / stride + 1`. */
  function OutDim(n: int, k: int, stride: int, pad: int): int
    requires 0 < stride
  {
    CDiv(n + 2 * pad - k, stride) + 1
  }

  /** The output extent counts the window positions: the last window of the
      `OutDim`-th step still fits in the padded extent, one more step would not. */
  lemma OutDimCountsWindows(n: int, k: int, stride: int, pad: int)
    requires 0 < stride && k <= n + 2 * pad
    ensures 1 <= OutDim(n, k, stride, pad)
    ensures (OutDim(n, k, stride, pad) - 1) * stride + k <= n + 2 * pad
    ensures n + 2 * pad < OutDim(n, k, stride, pad) * stride + k
  {
    var a := n + 2 * pad - k;
    var q := a / stride;
    assert a == q * stride + a % stride;
    assert (q + 1) * stride == q * stride + stride;
  }

  /** A kernel of size `2*pad + 1` moved with stride 1 keeps the extent: the
      shape `main` relies on to run every stage at 28 x 28. */
  lemma SamePaddingKeepsExtent(n: int, pad: int)
    requires 0 <= n && 0 <= pad
    ensures OutDim(n, 2 * pad + 1, 1, pad) == n
  {
  }

  /** What the lowering needs of its caller: a valid descriptor, a window that
      fits the padded image, and an image holding `ic` planes of `height x width`. */
  predicate Lowerable(im: seq<int>, height: int, width: int, cc: ConvConfig)
  {
    && cc.Valid()
    && 0 <= height && 0 <= width
    && cc.ksize <= height + 2 * cc.pad
    && cc.ksize <= width + 2 * cc.pad
    && cc.ic * height * width <= |im|
  }

  /** Position of pixel `(channel, row, col)` in the channel-major image. */
  function PixelIndex(height: int, width: int, row: int, col: int, channel: int): int
  {
    col + width * (row + height * channel)
  }

  /** A pixel inside the image of `nch` planes reads inside the buffer. */
  lemma PixelInBounds(height: int, width: int, row: int, col: int, channel: int, nch: int)
    requires 0 <= row < height && 0 <= col < width && 0 <= channel < nch
    ensures 0 <= PixelIndex(height, width, row, col, channel) < nch * height * width
  {
    var plane := row + height * channel;
    assert plane == Flat(channel, height, row);
    FlatBounds(channel, nch, height, row);
    assert PixelIndex(height, width, row, col, channel) == Flat(plane, width, col);
    FlatBounds(plane, nch * height, width, col);
  }

  lemma ChannelFits(channel: int, nch: int, height: int, width: int)
    requires 0 <= channel < nch && 0 <= height && 0 <= width
    ensures (channel + 1) * height * width <= nch * height * width
  {
    MulMonotone(channel + 1, nch, height);
    MulMonotone((channel + 1) * height, nch * height, width);
  }

  /** `im2col_get_pixel`: the pixel at `(row - pad, col - pad)` of plane
      `channel`, or 0 outside the image. */
  function GetPixel(im: seq<int>, height: int, width: int, row: int, col: int, channel: int, pad: int): int
    requires 0 <= height && 0 <= width && 0 <= channel
    requires (channel + 1) * height * width <= |im|
  {
    var row := row - pad;
    var col := col - pad;
    if row < 0 || col < 0 || row >= height || col >= width then 0
    else
      PixelInBounds(height, width, row, col, channel, channel + 1);
      im[PixelIndex(height, width, row, col, channel)]
  }

  /** Row `c` of the column matrix is the kernel tap `(c/K/K, (c/K)%K, c%K)`:
      the channel is below `ic`, both offsets below `K`, and the three recombine to `c`. */
  lemma RowDecompose(c: int, ic: int, k: int)
    requires 0 < k && 0 <= ic && 0 <= c < ic * k * k
    ensures 0 <= c / k / k < ic
    ensures 0 <= (c / k) % k < k && 0 <= c % k < k
    ensures c == Flat(Flat(c / k / k, k, (c / k) % k), k, c % k)
  {
    MulNonNegative(ic, k);
    CellOf(c, ic * k, k);
    CellOf(c / k, ic, k);
  }

  /** Conversely every tap `(channel, kh, kw)` is the row `(channel*K + kh)*K + kw`
      below `ic*K*K`, and decomposes back to itself. */
  lemma RowCompose(channel: int, kh: int, kw: int, ic: int, k: int)
    requires 0 <= channel < ic && 0 <= kh < k && 0 <= kw < k
    ensures var c := Flat(Flat(channel, k, kh), k, kw);
      && 0 <= c < ic * k * k
      && c / k / k == channel && (c / k) % k == kh && c % k == kw
  {
    FlatBounds(channel, ic, k, kh);
    FlatBounds(Flat(channel, k, kh), ic * k, k, kw);
    FlatDecode(Flat(channel, k, kh), k, kw);
    FlatDecode(channel, k, kh);
  }

  /** The value the lowering stores for row `c` at output pixel `(h, w)`:
      the body of the innermost loop of `im2col_cpu`. */
  function Entry(im: seq<int>, height: int, width: int, cc: ConvConfig, c: int, h: int, w: int): int
    requires Lowerable(im, height, width, cc)
    requires 0 <= c < cc.FanIn() && 0 <= h && 0 <= w
  {
    var wOffset := c % cc.ksize;
    var hOffset := (c / cc.ksize) % cc.ksize;
    var channel := c / cc.ksize / cc.ksize;
    RowDecompose(c, cc.ic, cc.ksize);
    ChannelFits(channel, cc.ic, height, width);
    GetPixel(im, height, width, hOffset + h * cc.stride, wOffset + w * cc.stride, channel, cc.pad)
  }

  /** Cell of row `c` and output pixel `(h, w)`: `(c*OH + h)*OW + w`. */
  function ColIndex(c: int, outHeight: int, h: int, outWidth: int, w: int): int
  {
    Flat(Flat(c, outHeight, h), outWidth, w)
  }

  /** Two in-range cells never share a position, so every cell is written once. */
  lemma ColIndexInjective(c1: int, h1: int, w1: int, c2: int, h2: int, w2: int, outHeight: int, outWidth: int)
    requires 0 <= h1 < outHeight && 0 <= w1 < outWidth
    requires 0 <= h2 < outHeight && 0 <= w2 < outWidth
    requires ColIndex(c1, outHeight, h1, outWidth, w1) == ColIndex(c2, outHeight, h2, outWidth, w2)
    ensures c1 == c2 && h1 == h2 && w1 == w2
  {
    FlatInjective(Flat(c1, outHeight, h1), w1, Flat(c2, outHeight, h2), w2, outWidth);
    FlatInjective(c1, h1, c2, h2, outHeight);
  }

  /** ... and every position of the `rows x (OH*OW)` matrix is some in-range cell. */
  lemma ColIndexOnto(k: int, rows: int, outHeight: int, outWidth: int)
    requires 0 <= rows && 0 <= outHeight && 0 <= outWidth
    requires 0 <= k < rows * outHeight * outWidth
    ensures 0 < outHeight && 0 < outWidth
    ensures 0 <= k / outWidth / outHeight < rows
    ensures 0 <= (k / outWidth) % outHeight < outHeight && 0 <= k % outWidth < outWidth
    ensures ColIndex(k / outWidth / outHeight, outHeight, (k / outWidth) % outHeight, outWidth, k % outWidth) == k
  {
    MulNonNegative(rows, outHeight);
    CellOf(k, rows * outHeight, outWidth);
    CellOf(k / outWidth, rows, outHeight);
  }

  /** The column matrix and the new spatial shape. */
  datatype Lowering = Lowering(data: seq<int>, outHeight: int, outWidth: int)

  /** `im2col_cpu` as a function: the full column matrix and the updated shape. */
  function Lower(im: seq<int>, height: int, width: int, cc: ConvConfig): (r: Lowering)
    requires Lowerable(im, height, width, cc)
    ensures r.outHeight == OutDim(height, cc.ksize, cc.stride, cc.pad)
    ensures r.outWidth == OutDim(width, cc.ksize, cc.stride, cc.pad)
    ensures 1 <= r.outHeight && 1 <= r.outWidth
    ensures |r.data| == cc.FanIn() * r.outHeight * r.outWidth
    ensures forall c, h, w :: 0 <= c < cc.FanIn() && 0 <= h < r.outHeight && 0 <= w < r.outWidth ==>
              0 <= ColIndex(c, r.outHeight, h, r.outWidth, w) < |r.data|
    ensures forall c, h, w {:trigger r.data[ColIndex(c, r.outHeight, h, r.outWidth, w)]} :: 0 <= c < cc.FanIn() && 0 <= h < r.outHeight && 0 <= w < r.outWidth ==>
              r.data[ColIndex(c, r.outHeight, h, r.outWidth, w)] == Entry(im, height, width, cc, c, h, w)
  {
    var oh := OutDim(height, cc.ksize, cc.stride, cc.pad);
    var ow := OutDim(width, cc.ksize, cc.stride, cc.pad);
    OutDimCountsWindows(height, cc.ksize, cc.stride, cc.pad);
    OutDimCountsWindows(width, cc.ksize, cc.stride, cc.pad);
    var rows := cc.FanIn();
    MulNonNegative(cc.ic, cc.ksize);
    MulNonNegative(cc.ic * cc.ksize, cc.ksize);
    var data := seq(rows * oh * ow, k requires 0 <= k < rows * oh * ow =>
                      ColIndexOnto(k, rows, oh, ow);
                      Entry(im, height, width, cc, k / ow / oh, (k / ow) % oh, k % ow));
    assert forall c, h, w :: 0 <= c < rows && 0 <= h < oh && 0 <= w < ow ==>
             0 <= ColIndex(c, oh, h, ow, w) < |data|
             && data[ColIndex(c, oh, h, ow, w)] == Entry(im, height, width, cc, c, h, w) by {
      forall c, h, w | 0 <= c < rows && 0 <= h < oh && 0 <= w < ow
        ensures 0 <= ColIndex(c, oh, h, ow, w) < |data|
        ensures data[ColIndex(c, oh, h, ow, w)] == Entry(im, height, width, cc, c, h, w)
      {
        FlatBounds(c, rows, oh, h);
        FlatBounds(Flat(c, oh, h), rows * oh, ow, w);
        FlatDecode(Flat(c, oh, h), ow, w);
        FlatDecode(c, oh, h);
      }
    }
    Lowering(data, oh, ow)
  }

  /** Zero-padding law: the cell for tap `(channel, kh, kw)` at output pixel `(h, w)`
      reads input pixel `(h*S + kh - P, w*S + kw - P)` of that channel; it is 0 when
      that pixel lies outside `[0, H) x [0, W)`, and otherwise it is the pixel's
      value, read at an index below `C*H*W`. */
  lemma ZeroPaddingLaw(im: seq<int>, height: int, width: int, cc: ConvConfig,
                       channel: int, kh: int, kw: int, h: int, w: int)
    requires Lowerable(im, height, width, cc)
    requires 0 <= channel < cc.ic && 0 <= kh < cc.ksize && 0 <= kw < cc.ksize
    requires 0 <= h < OutDim(height, cc.ksize, cc.stride, cc.pad)
    requires 0 <= w < OutDim(width, cc.ksize, cc.stride, cc.pad)
    ensures var r := Lower(im, height, width, cc);
      var c := Flat(Flat(channel, cc.ksize, kh), cc.ksize, kw);
      var row := h * cc.stride + kh - cc.pad;
      var col := w * cc.stride + kw - cc.pad;
      && 0 <= c < cc.FanIn()
      && 0 <= ColIndex(c, r.outHeight, h, r.outWidth, w) < |r.data|
      && (row < 0 || row >= height || col < 0 || col >= width ==>
            r.data[ColIndex(c, r.outHeight, h, r.outWidth, w)] == 0)
      && (0 <= row < height && 0 <= col < width ==>
            && 0 <= PixelIndex(height, width, row, col, channel) < cc.ic * height * width
            && r.data[ColIndex(c, r.outHeight, h, r.outWidth, w)] == im[PixelIndex(height, width, row, col, channel)])
  {
    var r := Lower(im, height, width, cc);
    RowCompose(channel, kh, kw, cc.ic, cc.ksize);
    var row := h * cc.stride + kh - cc.pad;
    var col := w * cc.stride + kw - cc.pad;
    if 0 <= row < height && 0 <= col < width {
      PixelInBounds(height, width, row, col, channel, cc.ic);
    }
  }

  /** The K x K window over every channel that the convolution multiplies at
      output pixel `(h, w)`: tap `t` is the value `im2col_cpu` stores in row `t`. */
  function Window(im: seq<int>, height: int, width: int, cc: ConvConfig, h: int, w: int): (r: seq<int>)
    requires Lowerable(im, height, width, cc) && 0 <= h && 0 <= w
    ensures |r| == cc.FanIn()
    ensures forall t {:trigger r[t]} :: 0 <= t < cc.FanIn() ==> r[t] == Entry(im, height, width, cc, t, h, w)
  {
    seq(cc.FanIn(), t requires 0 <= t < cc.FanIn() => Entry(im, height, width, cc, t, h, w))
  }

  /** Column `h*OW + w` of the lowered matrix, read the way both layers read it
      (`x[j*N + i]` with `N = OH*OW`), is the window at output pixel `(h, w)`. */
  lemma LoweredColumn(im: seq<int>, height: int, width: int, cc: ConvConfig, h: int, w: int)
    requires Lowerable(im, height, width, cc)
    requires 0 <= h < OutDim(height, cc.ksize, cc.stride, cc.pad)
    requires 0 <= w < OutDim(width, cc.ksize, cc.stride, cc.pad)
    ensures var r := Lower(im, height, width, cc);
      && 0 <= Flat(h, r.outWidth, w) < r.outHeight * r.outWidth
      && cc.FanIn() * (r.outHeight * r.outWidth) <= |r.data|
      && Column(r.data, cc.FanIn(), r.outHeight * r.outWidth, Flat(h, r.outWidth, w)) == Window(im, height, width, cc, h, w)
  {
    var r := Lower(im, height, width, cc);
    var oh, ow := r.outHeight, r.outWidth;
    var n := oh * ow;
    var i := Flat(h, ow, w);
    FlatBounds(h, oh, ow, w);
    MulAssociates(cc.FanIn(), oh, ow);
    var col := Column(r.data, cc.FanIn(), n, i);
    var win := Window(im, height, width, cc, h, w);
    forall t | 0 <= t < cc.FanIn()
      ensures col[t] == win[t]
    {
      ColumnPosition(t, oh, h, ow, w);
    }
  }

  lemma MulAssociates(a: int, b: int, c: int)
    ensures a * (b * c) == a * b * c
  {
  }

  /** Row `t` of column `h*OW + w` of a matrix with `OH*OW` columns is the cell
      `(t*OH + h)*OW + w` the lowering writes. */
  lemma ColumnPosition(t: int, outHeight: int, h: int, outWidth: int, w: int)
    ensures Flat(t, outHeight * outWidth, Flat(h, outWidth, w)) == ColIndex(t, outHeight, h, outWidth, w)
  {
    MulAssociates(t, outHeight, outWidth);
    assert (t * outHeight + h) * outWidth == (t * outHeight) * outWidth + h * outWidth;
  }

  /** The lowering reads only the first `ic*H*W` elements of the image buffer. */
  lemma LowerReadsPrefix(im: seq<int>, height: int, width: int, cc: ConvConfig)
    requires Lowerable(im, height, width, cc)
    ensures Lowerable(im[..cc.ic * height * width], height, width, cc)
    ensures Lower(im, height, width, cc) == Lower(im[..cc.ic * height * width], height, width, cc)
  {
    var im' := im[..cc.ic * height * width];
    assert Lowerable(im', height, width, cc);
    LowerDataReadsPrefix(im, im', height, width, cc);
  }

  /** The column matrices of an image buffer and of its `ic*H*W` prefix agree. */
  lemma LowerDataReadsPrefix(im: seq<int>, im': seq<int>, height: int, width: int, cc: ConvConfig)
    requires Lowerable(im, height, width, cc)
    requires im' == im[..cc.ic * height * width] && Lowerable(im', height, width, cc)
    ensures Lower(im, height, width, cc).data == Lower(im', height, width, cc).data
  {
    var r := Lower(im, height, width, cc);
    var r' := Lower(im', height, width, cc);
    forall k | 0 <= k < |r.data|
      ensures r.data[k] == r'.data[k]
    {
      MulNonNegative(cc.ic, cc.ksize);
      MulNonNegative(cc.ic * cc.ksize, cc.ksize);
      ColIndexOnto(k, cc.FanIn(), r.outHeight, r.outWidth);
      var c, h, w := k / r.outWidth / r.outHeight, (k / r.outWidth) % r.outHeight, k % r.outWidth;
      EntryReadsPrefix(im, height, width, cc, c, h, w);
    }
  }

  lemma EntryReadsPrefix(im: seq<int>, height: int, width: int, cc: ConvConfig, c: int, h: int, w: int)
    requires Lowerable(im, height, width, cc)
    requires 0 <= c < cc.FanIn() && 0 <= h && 0 <= w
    ensures Lowerable(im[..cc.ic * height * width], height, width, cc)
    ensures Entry(im, height, width, cc, c, h, w) == Entry(im[..cc.ic * height * width], height, width, cc, c, h, w)
  {
    RowDecompose(c, cc.ic, cc.ksize);
    var channel := c / cc.ksize / cc.ksize;
    var row := (c / cc.ksize) % cc.ksize + h * cc.stride - cc.pad;
    var col := c % cc.ksize + w * cc.stride - cc.pad;
    if 0 <= row < height && 0 <= col < width {
      PixelInBounds(height, width, row, col, channel, cc.ic);
    }
  }

  /** The cell the innermost loop of `im2col_cpu` writes for `(c, h, w)` lies in
      the lowered matrix and holds the pixel the loop fetches. */
  lemma LoweredCell(im: seq<int>, height: int, width: int, cc: ConvConfig, c: int, h: int, w: int)
    requires Lowerable(im, height, width, cc)
    requires 0 <= c < cc.FanIn()
    requires 0 <= h < OutDim(height, cc.ksize, cc.stride, cc.pad)
    requires 0 <= w < OutDim(width, cc.ksize, cc.stride, cc.pad)
    ensures var oh := OutDim(height, cc.ksize, cc.stride, cc.pad);
      var ow := OutDim(width, cc.ksize, cc.stride, cc.pad);
      var lowered := Lower(im, height, width, cc).data;
      var channel := c / cc.ksize / cc.ksize;
      && (c * oh + h) * ow + w == ColIndex(c, oh, h, ow, w)
      && 0 <= ColIndex(c, oh, h, ow, w) < |lowered|
      && 0 <= channel && (channel + 1) * height * width <= |im|
      && lowered[ColIndex(c, oh, h, ow, w)]
         == GetPixel(im, height, width, (c / cc.ksize) % cc.ksize + h * cc.stride,
                     c % cc.ksize + w * cc.stride, channel, cc.pad)
  {
    RowDecompose(c, cc.ic, cc.ksize);
    ChannelFits(c / cc.ksize / cc.ksize, cc.ic, height, width);
  }

  /** `im2col_cpu` as written: three nested loops over row `c`, output row `h` and
      output column `w`, storing each cell at `(c*OH + h)*OW + w`. Returns the
      destination buffer and the updated height and width. */
  method Im2ColCpu(col: seq<int>, im: seq<int>, height: int, width: int, cc: ConvConfig)
    returns (col': seq<int>, outHeight: int, outWidth: int)
    requires Lowerable(im, height, width, cc)
    requires cc.FanIn() * OutDim(height, cc.ksize, cc.stride, cc.pad) * OutDim(width, cc.ksize, cc.stride, cc.pad) <= |col|
    ensures outHeight == OutDim(height, cc.ksize, cc.stride, cc.pad)
    ensures outWidth == OutDim(width, cc.ksize, cc.stride, cc.pad)
    ensures |col'| == |col|
    ensures var lowered := Lower(im, height, width, cc).data;
      |lowered| <= |col| && col'[..|lowered|] == lowered && col'[|lowered|..] == col[|lowered|..]
  {
    var nchannels := cc.ic;
    var ksize := cc.ksize;
    var stride := cc.stride;
    var pad := cc.pad;

    var oh := OutDim(height, ksize, stride, pad);
    var ow := OutDim(width, ksize, stride, pad);
    ghost var lowered := Lower(im, height, width, cc);

    var colSize := nchannels * ksize * ksize;
    col' := col;
    ghost var written := 0;
    var c := 0;
    while c < colSize
      invariant 0 <= c <= colSize
      invariant written == ColIndex(c, oh, 0, ow, 0) && written <= |lowered.data|
      invariant |col'| == |col|
      invariant forall k :: 0 <= k < written ==> col'[k] == lowered.data[k]
      invariant forall k :: written <= k < |col| ==> col'[k] == col[k]
    {
      var wOffset := c % ksize;
      var hOffset := (c / ksize) % ksize;
      var channel := c / ksize / ksize;
      var h := 0;
      while h < oh
        invariant 0 <= h <= oh
        invariant written == ColIndex(c, oh, h, ow, 0) && written <= |lowered.data|
        invariant |col'| == |col|
        invariant forall k :: 0 <= k < written ==> col'[k] == lowered.data[k]
        invariant forall k :: written <= k < |col| ==> col'[k] == col[k]
      {
        var w := 0;
        while w < ow
          invariant 0 <= w <= ow
          invariant written == ColIndex(c, oh, h, ow, w) && written <= |lowered.data|
          invariant |col'| == |col|
          invariant forall k :: 0 <= k < written ==> col'[k] == lowered.data[k]
          invariant forall k :: written <= k < |col| ==> col'[k] == col[k]
        {
          var inputRow := hOffset + h * stride;
          var inputCol := wOffset + w * stride;
          var colIndex := (c * oh + h) * ow + w;
          LoweredCell(im, height, width, cc, c, h, w);
          col' := col'[colIndex := GetPixel(im, height, width, inputRow, inputCol, channel, pad)];
          written := written + 1;
          w := w + 1;
        }
        FlatRowEnd(Flat(c, oh, h), ow);
        h := h + 1;
      }
      FlatRowEnd(c, oh);
      c := c + 1;
    }
    outHeight := oh;
    outWidth := ow;
    assert written == |lowered.data|;
  }
}
