# im2col convolution and linear layers, modelled in Dafny

The repository benchmarks two small neural-network programs written in C:

- `run-conv.c` runs a convolutional network. A 3-channel 28 x 28 image goes
  through a first 3 -> 64 layer and then 100 copies of a 64 -> 64 layer. All
  layers use 3 x 3 kernels, stride 1 and padding 1.
- `run-linear.c` runs a fully connected 4096 -> 4096 layer 100 times.

Every layer has two strategies:

- a reference one made of plain nested loops (`matmul_conv_org`, `linear_org`);
- an accelerated one that calls BLAS (`matmul_conv_opt`, `linear_opt`).

A convolution is computed by lowering the feature map into a column matrix
(`im2col_cpu`) and then multiplying the weights by that matrix.

This project models that core over unbounded integers and proves what it
computes. The modules are:

- `Index`: row-major index arithmetic `r * width + c`, its inverse, and
  `Tabulate`, the row-major matrix of a cell function.
- `Buffer`: the invariant that a destination buffer has been filled up to a
  given position.
- `Blas`: the dot product, matrix rows and columns, and an exact-arithmetic
  meaning for `cblas_sgemm`, `cblas_sgemv` and `cblas_saxpy` in the one calling
  convention the program uses.
- `Activation`: `fmax(v, 0)`, the intended ReLU pass, and the ReLU pass as the
  accelerated functions write it.
- `ConvLayout`: `ConvConfig`, where a layer's weights and biases sit in the
  parameter blob, and the two layers `main` configures.
- `Im2Col`: `im2col_get_pixel`, the output-shape formula with C's truncating
  division, and the tap decomposition of a column-matrix row. It also holds
  the lowering as a function (`Lower`) and as the three-loop method
  (`Im2ColCpu`), proved equal.
- `ConvLayer`: the reference convolution, the loop method `MatmulConvOrg`, and
  the accelerated strategy. The accelerated strategy appears twice: as
  intended (`ConvOpt`) and as written (`ConvOptAsWritten`).
- `ConvNet`: the buffer sizes and the stage loop of `main` in `run-conv.c`.
- `LinearLayer` and `LinearNet`: the same for `run-linear.c`, including the
  50-round ping-pong between two buffers.

C's in-place writes are modelled as methods or functions that take the
destination buffer and return its new contents. The contracts say which cells
change and what they hold.

## Model

| member | source | states |
|---|---|---|
| `Im2Col.OutDimCountsWindows` | run-conv.c:52-53 | the truncated `(n + 2P - K) / S + 1` is at least 1 and is exactly the number of window positions: the last window fits the padded extent, one more stride would not |
| `Im2Col.CDiv` | run-conv.c:52-53 | C's `/` by a positive divisor: the remainder `a - q*b` has the sign of `a` and is smaller than the divisor in size, which fixes `q` as the quotient truncated toward zero, also for the negative numerators of an image smaller than its kernel |
| `Im2Col.OutDim` | run-conv.c:52-53 | `out_height` and `out_width`; no contract of its own: `OutDimCountsWindows` states what the count means and `MainShapeIsFixed` gives its value in `main` |
| `ConvNet.MainShapeIsFixed` | run-conv.c:158-160 | with K = 3, S = 1, P = 1 the lowering maps 28 x 28 to 28 x 28 |
| `Im2Col.ZeroPaddingLaw` | run-conv.c:32-40 | the cell for tap `(channel, kh, kw)` at pixel `(h, w)` is 0 when `(h*S + kh - P, w*S + kw - P)` lies outside the image; otherwise it is that pixel of that channel, read at an index below `C*H*W` |
| `Im2Col.RowDecompose` | run-conv.c:57-60 | for `c < C*K*K`, `kw = c % K` and `kh = (c / K) % K` are below K, `channel = c / K / K` is below C, and `c == (channel*K + kh)*K + kw` |
| `Im2Col.RowCompose` | run-conv.c:57-60 | every tap `(channel, kh, kw)` is a row below `C*K*K` that decomposes back to itself |
| `Im2Col.GetPixel` | run-conv.c:32-40 | `im2col_get_pixel`; no contract of its own: `ZeroPaddingLaw` states its value at every tap, 0 in the padding and the in-bounds pixel elsewhere |
| `Im2Col.PixelIndex` | run-conv.c:39 | the read position `col + width*(row + height*channel)`; no contract of its own: `ZeroPaddingLaw` states that every in-image pixel it is used for lies below `C*H*W` |
| `Im2Col.Entry` | run-conv.c:58-70 | the value the innermost loop stores for row `c` at output pixel `(h, w)`; no contract of its own: `ZeroPaddingLaw` and `LoweredCell` state its value |
| `Im2Col.ColIndex` | run-conv.c:65-66 | `col_index = (c*OH + h)*OW + w`; no contract of its own: `ColIndexInjective` and `ColIndexOnto` make it a bijection onto `[0, rows*OH*OW)` |
| `Im2Col.ColIndexInjective` | run-conv.c:65-67 | two in-range `(c, h, w)` never share the position `(c*OH + h)*OW + w` |
| `Im2Col.ColIndexOnto` | run-conv.c:57-67 | every position below `rows*OH*OW` is the position of some in-range `(c, h, w)` |
| `Im2Col.Lower` | run-conv.c:43-77 | the lowered matrix has `C*K*K*OH*OW` cells, the new shape is `(OH, OW)`, and cell `(c*OH + h)*OW + w` holds the pixel of row `c`'s tap at output pixel `(h, w)` |
| `Im2Col.LoweredCell` | run-conv.c:61-70 | the cell the innermost loop writes lies in the matrix and holds the `im2col_get_pixel` value it fetches |
| `Im2Col.Im2ColCpu` | run-conv.c:43-77 | the three loops write exactly the lowered matrix into the front of `col`, leave the rest of `col` unchanged, and return the updated height and width |
| `Im2Col.LowerReadsPrefix` | run-conv.c:39 | the lowering reads only the first `C*H*W` values of the image buffer |
| `Im2Col.Window` | run-conv.c:61-70 | the `C*K*K` taps `im2col_cpu` stores for output pixel `(h, w)`, tap `t` being the `im2col_get_pixel` value of row `t` |
| `Im2Col.LoweredColumn` | run-conv.c:65-67 | column `h*OW + w` of the lowered matrix, read as `x[j*N + i]` with `N = OH*OW`, is exactly the window at output pixel `(h, w)`; the key step is `(t*OH + h)*OW + w == t*(OH*OW) + (h*OW + w)` |
| `ConvLayout.MainLayout` | run-conv.c:162-164 | `cc_in` starts at 0 and `cc`'s parameters start where `cc_in`'s weights and bias end, so the regions are adjacent and disjoint; their sizes are `3*64*9 + 64` and `64*64*9 + 64` |
| `ConvLayout.ConvConfig.FanIn` | run-conv.c:84 | `in = ic*ksize*ksize`, non-negative for a valid descriptor; the length of a weight row and the row count of the column matrix |
| `ConvLayout.ConvConfig.BiasBase` | run-conv.c:87 | `b = w + nchannels*in`; no contract of its own: `WeightRow` states that every weight lies below it, and `MainLayout` where each layer's region ends |
| `ConvLayer.BiasOf` | run-conv.c:95 | `bias_val`; no contract of its own: `ConvBiasOffLaw` states that a layer without bias behaves as one with all-zero biases |
| `ConvLayer.WeightRow` | run-conv.c:86-87 | weight `j` of output channel `c` is `p[offset + c*in + j]`, inside the weight region `[offset, offset + oc*in)` |
| `ConvLayer.ConvReference` | run-conv.c:79-101 | the output has `oc*N` cells; cell `c*N + i` is the activated `sum_j w[c*in + j] * x[j*N + i]` plus `b[c]` when the layer has a bias |
| `ConvLayer.ConvCell` | run-conv.c:93-98 | cell `(c, i)` of the reference sits at `c*N + i`, below `oc*N`, and holds that activated sum |
| `ConvLayer.AccumulateCell` | run-conv.c:91-94 | the innermost loop accumulates the dot product of weight row `c` with column `i` |
| `ConvLayer.OutputCell` | run-conv.c:91-98 | the accumulated value plus `bias_val`, through the optional `fmax`, is the reference cell |
| `ConvLayer.MatmulConvOrg` | run-conv.c:79-101 | `matmul_conv_org` writes the reference output into `xout[0 .. oc*N)` and nothing else |
| `Blas.Sgemm` | run-conv.c:112-113 | the product overwrites the first `m*n` cells; cell `i*n + j` is the dot product of row `i` of the weights with column `j`; later cells are unchanged |
| `Blas.Sgemv` | run-linear.c:57-58 | the product overwrites the first `m` cells with the dot products of the weight rows with `x[..n]`; later cells are unchanged |
| `Blas.Saxpy` | run-conv.c:118 | `y[yOff + t] += alpha * x[xOff + t*incx]` for `t < n`; no other cell changes; increment 0 broadcasts one value |
| `Blas.Dot` | run-conv.c:91-94 | the value `val` both reference loops accumulate; no contract of its own: `DotStep` states the accumulation step, and `AccumulateCell` and `AccumulateRow` prove the loops compute it |
| `ConvLayer.AddBiasRows` | run-conv.c:115-119 | the stride-0 `saxpy` per channel adds `b[c]` to every cell of row `c` and leaves the cells after the rows alone |
| `ConvLayer.ConvOptAffine` | run-conv.c:112-120 | the sgemm and bias steps of `matmul_conv_opt`; its meaning is stated by `ConvOptMatchesReference` with `relu = false`: the reference output without ReLU in the first `oc*N` cells, the rest unchanged |
| `ConvLayer.ConvOpt` | run-conv.c:103-128 | `matmul_conv_opt` with the ReLU pass it evidently intends; `ConvOptMatchesReference` proves it equal to the reference in all bias and ReLU combinations |
| `ConvLayer.ConvOptAsWritten` | run-conv.c:103-128 | `matmul_conv_opt` as written; `ConvOptAsWrittenCell`, `ConvOptCopiesInput` and `ConvOptSkipsLaterChannels` state what its ReLU pass leaves, and `AsWrittenMatchesReferenceWithoutRelu` that it equals the reference without ReLU |
| `ConvLayer.ConvOptMatchesReference` | run-conv.c:103-120 | sgemm plus the bias broadcast plus the intended ReLU pass give exactly the reference output in the first `oc*N` cells and leave the rest of `xout` alone, with or without bias and ReLU |
| `ConvLayer.AsWrittenMatchesReferenceWithoutRelu` | run-conv.c:180-183 | with `relu = false`, as every call in `main` passes, the as-written accelerated layer equals the reference |
| `ConvLayer.ConvOptAsWrittenCell` | run-conv.c:122-127 | with ReLU on, the as-written pass leaves `x[k]` or 0 in cell `k < N`, depending on the sign of the output, and the unrectified output in every later cell |
| `ConvLayer.ConvOptCopiesInput` | run-conv.c:125 | where an output `k < N` is positive, the as-written layer holds the column matrix's `x[k]` and the reference holds the output itself |
| `ConvLayer.ConvOptSkipsLaterChannels` | run-conv.c:124 | a negative output at `k >= N` stays negative in the as-written layer, where the reference holds 0 |
| `ConvLayer.ConvReluLaw` | run-conv.c:96-98 | with ReLU on, every cell is `max(v, 0) >= 0` of the cell `v` computed with ReLU off |
| `ConvLayer.ConvBiasOffLaw` | run-conv.c:95 | a layer without bias computes what it computes with an all-zero bias vector |
| `ConvLayer.ConvReadsOnlyItsRegion` | run-conv.c:86-87 | blobs that agree on `[offset, offset + oc*in + (bias ? oc : 0))` give the same output |
| `ConvLayer.ConvReadsColumnMatrix` | run-conv.c:93 | the layer reads only the first `in*N` cells of the column matrix |
| `ConvNet.MainBuffersFit` | run-conv.c:167-168 | each layer's input planes fit `x`, its column matrix fits `x2` (the hidden layer fills it exactly), and its output fills `x` |
| `ConvNet.Stage` | run-conv.c:182-183 | one stage at the fixed shape produces a full activation buffer of `64*28*28` values |
| `ConvNet.Hidden` | run-conv.c:181-184 | every number of hidden stages keeps the activation buffer at `64*28*28` values |
| `ConvNet.StageCell` | run-conv.c:182-183 | one stage, `im2col_cpu` followed by the layer, is the convolution of its input: output channel `c` at pixel `(h, w)` is the dot product of the channel's weights with the window at `(h, w)`, plus the channel's bias |
| `ConvNet.Network` | run-conv.c:177-192 | the first layer followed by 100 hidden stages, `64*28*28` values; `ConvForward` proves that both strategies of `main` compute it |
| `ConvNet.RunStage` | run-conv.c:179-180 | `im2col_cpu` followed by either matmul leaves the shape at 28 x 28 and the activation buffer equal to the stage's output |
| `ConvNet.ConvForward` | run-conv.c:177-192 | both strategies of `main` end with the first layer followed by 100 hidden stages in `x`, at shape 28 x 28 |
| `ConvNet.NetworkReadsOnlyInput` | run-conv.c:167-170 | the network depends only on the `3*28*28` values `fread` loads, not on the rest of the fresh buffer |
| `Activation.Relu` | run-conv.c:97-98 | `fmax(v, 0)` is non-negative, at least `v`, and is `v` or 0 |
| `Activation.Activate` | run-conv.c:96-98 | the optional activation: `fmax(v, 0)` when `relu` is set and `v` unchanged otherwise, as run-linear.c:44 also applies it |
| `Activation.ReluPass` | run-linear.c:62-67 | the intended pass rectifies the first `n` cells and leaves the rest |
| `Activation.ReluPassAsWritten` | run-linear.c:62-67 | the pass as written stores `x[k]` or 0 in the first `n` cells and leaves the rest |
| `Blas.DotStep` | run-linear.c:40-42 | one step `val += a[j] * b[j]` extends the dot product of the first `j` elements to `j + 1` |
| `LinearLayer.WeightRow` | run-linear.c:35-41 | weight `j` of output `i` is `p[offset + i*in + j]`, inside the weight region `[offset, offset + in*out)` |
| `LinearLayer.LinearConfig.BiasBase` | run-linear.c:36 | `b = w + in*out`; no contract of its own: `WeightRow` states that every weight lies below it, and `MainLinearLayout` where the region ends |
| `LinearLayer.BiasOf` | run-linear.c:43 | `bias_val`; no contract of its own: `LinearBiasOffLaw` states that a layer without bias behaves as one with all-zero biases |
| `LinearLayer.LinearReference` | run-linear.c:28-46 | output `i < out` is the activated `sum_j w[i*in + j] * x[j]` plus `b[i]` when the layer has a bias |
| `LinearLayer.AccumulateRow` | run-linear.c:39-42 | the inner loop accumulates the dot product of weight row `i` with `x[..in]` |
| `LinearLayer.LinearOrg` | run-linear.c:28-46 | `linear_org` writes the reference output into `xout[0 .. out)` and leaves the rest of `xout` unchanged |
| `LinearLayer.LinearOptMatchesReference` | run-linear.c:48-61 | sgemv plus the unit-stride `saxpy` bias add plus the intended ReLU pass give exactly the reference output in `xout[0 .. out)` |
| `LinearLayer.LinearOptAffine` | run-linear.c:57-60 | the sgemv and bias steps of `linear_opt`; its meaning is stated by `LinearOptMatchesReference` with `relu = false`: the reference output without ReLU in the first `out` cells |
| `LinearLayer.LinearOpt` | run-linear.c:48-68 | `linear_opt` with the ReLU pass it evidently intends; `LinearOptMatchesReference` proves it equal to the reference |
| `LinearLayer.LinearOptAsWritten` | run-linear.c:48-68 | `linear_opt` as written; `LinearOptAsWrittenCell` and `LinearOptCopiesInput` state what its ReLU pass leaves, and `AsWrittenMatchesReferenceWithoutRelu` that it equals the reference without ReLU |
| `LinearLayer.AsWrittenMatchesReferenceWithoutRelu` | run-linear.c:115-116 | with `relu = false`, as every call in `main` passes, the as-written accelerated layer equals the reference |
| `LinearLayer.LinearOptAsWrittenCell` | run-linear.c:62-67 | with ReLU on, the as-written pass leaves `x[i]` where the output is positive and 0 elsewhere |
| `LinearLayer.LinearOptCopiesInput` | run-linear.c:65 | where an output is positive, the as-written layer holds the input `x[i]` and the reference holds the output itself |
| `LinearLayer.LinearReluLaw` | run-linear.c:44 | with ReLU on, every output is `max(v, 0) >= 0` of the output `v` computed with ReLU off |
| `LinearLayer.LinearBiasOffLaw` | run-linear.c:43 | a layer without bias computes what it computes with an all-zero bias vector |
| `LinearLayer.LinearReadsOnlyItsRegion` | run-linear.c:35-36 | the output depends only on `p[offset .. offset + in*out + (bias ? out : 0))` and on `x[..in]` |
| `LinearLayer.MainLinearLayout` | run-linear.c:98-99 | `main`'s layer reads the blob from 0 up to `4096*4096 + 4096` |
| `LinearNet.Stack` | test_all.py:64 | stacking the square layer any number of times keeps a vector of `in` values |
| `LinearNet.StackAdds` | test_all.py:64 | `m` layers stacked on `n` layers are `n + m` layers |
| `LinearNet.Apply` | run-linear.c:115-121 | one call in `main`, in either strategy, makes the destination exactly the layer's output |
| `LinearNet.Round` | run-linear.c:115-116 | one round `x2 := L(x); x := L(x2)` adds two layers to the stack `x` holds |
| `LinearNet.PingPong` | run-linear.c:114-123 | after `r` rounds `x` holds the layer stacked `2r` times |
| `LinearNet.LinearForward` | run-linear.c:112-123 | both strategies of `main` leave in `x` the 100-layer stack of the 4096 -> 4096 layer |

## Left out

- File and memory-map I/O, argument parsing, printing and cleanup in both
  `main` functions. The parameter blob and the input vector are parameters.
- OpenMP. Every parallel loop writes a disjoint row or element, so the loops
  are modelled sequentially.
- IEEE single precision. Values are unbounded integers, so rounding,
  summation order and the tolerance comparison of the test harness are not
  modelled.
- The internals of `cblas_sgemm`, `cblas_sgemv` and `cblas_saxpy`. Each is
  given its mathematical meaning in the one calling convention the program
  uses.
- 32-bit `int` overflow in the index arithmetic. Every index the two `main`
  configurations compute is below 2^31; the largest is `4096*4096 + 4096`.
- Aliasing of source and destination. Buffers are values, so the model
  cannot express an overlap; `main` always passes distinct buffers.
- Im2Col.Lower: requires `K <= H + 2P` and `K <= W + 2P`. The C code also
  runs on smaller images, where the truncated extent is 1 or non-positive;
  those shapes are not covered.
- Im2Col.Im2ColCpu: has the same shape requirement as `Lower`.
- The PyTorch reference, float serialisation, process launching and timing
  in test_all.py, and the notebook conversion in nbexport.py.

## Findings

`matmul_conv_opt` and `linear_opt` take the same `relu` flag as
`matmul_conv_org` and `linear_org`, and `main` uses one or the other for a
whole run, so each pair is meant to compute the same output. With ReLU on they
do not: both accelerated ReLU passes are wrong. No call in `main`
enables ReLU, so the programs' outputs are unaffected.
`AsWrittenMatchesReferenceWithoutRelu` proves this for both layers.

| source | as written | input that shows it | evidently intended | confidence | as-written member | corrected member |
|---|---|---|---|---|---|---|
| run-conv.c:122-127 | `xout[i] = xout[i] > 0 ? x[i] : 0` for `i < out`: stores the column matrix's `x[i]` instead of the output, and rectifies only the first `out` of the `oc*out` cells | 1 input channel, 2 output channels, 1x1 kernel, one pixel, weights 3 and -1, no bias, input 2: the reference gives 6 and 0, as written gives 2 and -2 | `fmax(v, 0)` over all `oc*out` cells, as `matmul_conv_org` does | not executed | `ConvLayer.ConvOptAsWritten`, shown by `ConvLayer.ConvOptCopiesInput` and `ConvLayer.ConvOptSkipsLaterChannels` | `ConvLayer.ConvOpt`, proved equal to the reference by `ConvLayer.ConvOptMatchesReference` |
| run-linear.c:62-67 | `xout[i] = xout[i] > 0 ? x[i] : 0`: stores the input `x[i]` instead of the output | one input, one output, weight 3, no bias, input 2: the reference gives 6, as written gives 2 | `fmax(v, 0)` on each output, as `linear_org` does | not executed | `LinearLayer.LinearOptAsWritten`, shown by `LinearLayer.LinearOptCopiesInput` | `LinearLayer.LinearOpt`, proved equal to the reference by `LinearLayer.LinearOptMatchesReference` |
