# Layer kernels of the CS231n assignment, modelled in Dafny

This project models the exact, index-driven part of
`assignment2/cs231n/layers.py`. That part is the building blocks of a small
convolutional network and the gradients of each block:

- the affine (fully connected) layer, forward and backward;
- the ReLU, forward and backward;
- the naive convolution, forward and backward, with its padding helpers
  `is_pad_coordinate` and `padded_coordinate_to_reg`;
- the naive max pooling, forward and backward;
- the multiclass SVM loss and its gradient.

Numbers are exact `real`s.

The kernels that loop are modelled with the loops. These are the sliding-window
sweeps of convolution and pooling, the shape product of the affine layer, and
the masked updates of the SVM loss. Each sweep's `while` loop keeps two pairs of
counters, the window corner `(start_i, start_j)` and the output cell
`(out_i, out_j)`. Module `Sweep` proves that the two pairs move in lockstep
(`start = out * stride`) through every output cell in row-major order when the
window's column steps end exactly on the field's right edge.

The numpy arrays those loops write (`out`, `dx`, `dw`, `db`) are `array4` /
`array` objects updated in place. Each kernel is proved against a specification
function on values: a window product-sum, a row-major prefix sum of upstream
gradients, or a first maximum. Properties are then proved about those functions:
- the output size;
- that padding is never written;
- that the pooled value is the window maximum;
- that the routed gradient is conserved;
- that the affine gradients are the adjoints of the forward map;
- the SVM gradient's row sums.

Modules:

| file | module | models |
|---|---|---|
| grids.dfy | Grids | row-major prefix sums and dot products over grids, row-major flattening, value snapshots of arrays |
| sweep.dfy | Sweep | the shared sliding-window cursor and output size |
| padding.dfy | Padding | `np.pad` with zeros, `is_pad_coordinate`, `padded_coordinate_to_reg` |
| conv_forward.dfy | ConvForward | `conv_forward_naive` |
| conv_backward.dfy | ConvBackward | `conv_backward_naive` |
| pool.dfy | MaxPool | `max_pool_forward_naive`, `max_pool_backward_naive`, `np.argmax` / `np.max` |
| relu.dfy | Relu | `relu_forward`, `relu_backward` |
| svm.dfy | Svm | `svm_loss` |
| affine.dfy | Affine | `affine_forward`, `affine_backward`, reshape and `np.dot` |

## Model

| member | source | states |
|---|---|---|
| Sweep.OutDim | assignment2/cs231n/layers.py:424-425 | the output size 1 + (field - win) / stride is at least 1; the last window of that many fits in the field and one more would not |
| Sweep.ExactFit | assignment2/cs231n/layers.py:425 | when (W - WW) is a multiple of the stride, the last window of a row ends exactly on the field's right edge |
| Sweep.GuardExact | assignment2/cs231n/layers.py:444 | the loop guard `start_i + HH <= height` holds exactly while rows of output cells remain |
| Sweep.CellWindowInField | assignment2/cs231n/layers.py:446-450 | the window of every output cell lies inside the field |
| Sweep.Advance | assignment2/cs231n/layers.py:457-466 | the cursor update: the start column wraps to 0 and the start row moves by stride once the window touches the right edge, the output column wraps to 0 and the output row moves by one at W' - 1; AdvanceLockstep states what it preserves |
| Sweep.AdvanceLockstep | assignment2/cs231n/layers.py:457-466 | one step of the cursor moves both counter pairs to the next output cell in row-major order and keeps start = out * stride; the start column wraps exactly when the output column does |
| Padding.IsPadCoordinate | assignment2/cs231n/layers.py:473-482 | a coordinate is a pad coordinate when it lies in the border of width pad; PadCoordinateExact states that this is exactly "outside the unpadded example" |
| Padding.PaddedCoordinateToReg | assignment2/cs231n/layers.py:484-485 | the mapped coordinate plus pad gives back the padded coordinate |
| Padding.Padded | assignment2/cs231n/layers.py:432 | the `np.pad` of one channel; PaddedMatchesPadCoordinates states that it is 0 on the pad coordinates and the channel's value at the mapped coordinate elsewhere |
| Padding.PadCoordinateExact | assignment2/cs231n/layers.py:473-485 | on a padded example of size H + 2 pad by W + 2 pad, a coordinate is not a pad coordinate iff `padded_coordinate_to_reg` maps it into [0, H) x [0, W); the map is undone by adding pad |
| Padding.PaddedMatchesPadCoordinates | assignment2/cs231n/layers.py:473-482 | the zero-padded example is 0 exactly on pad coordinates and holds x at the mapped coordinate elsewhere |
| Padding.PaddedWindow | assignment2/cs231n/layers.py:446-450 | the HH by WW window with corner (si, sj) holds the padded example's value at (si + a, sj + b) |
| ConvForward.ConvForwardPlane | assignment2/cs231n/layers.py:440-466 | the while loop of one (example, filter) pair writes every cell of out[n, f] with its window's product-sum plus bias, and no other cell |
| ConvForward.ConvForwardNaive | assignment2/cs231n/layers.py:389-471 | out is (N, F, 1 + (H + 2 pad - HH) / stride, 1 + (W + 2 pad - WW) / stride) and every out[n, f, i, j] is the product-sum of w[f] with the padded window at (i * stride, j * stride) plus b[f] |
| ConvForward.IdentityFilterForward | assignment2/cs231n/layers.py:389-471 | a 1x1 filter holding 1 with zero bias, stride 1 and no padding is a well-formed layer that reproduces its input |
| ConvBackward.AccumStep | assignment2/cs231n/layers.py:540-559 | visiting output cell (i, j) adds its upstream gradient times the factor (input cell, weight or 1) of its window to the running row-major sum |
| ConvBackward.WindowStep | assignment2/cs231n/layers.py:540-559 | AccumStep for every factor at once, with the window corner given as (i * stride, j * stride) |
| ConvBackward.ScatterRow | assignment2/cs231n/layers.py:548-556 | the pad_j loop adds w * dout to dx exactly at the non-pad cells of one window row, mapped back by subtracting pad, and changes nothing else |
| ConvBackward.ScatterChannel | assignment2/cs231n/layers.py:547-556 | the pad_i and pad_j loops of one channel: each unpadded input cell covered by the window gains the weight it meets times dout; nothing else changes |
| ConvBackward.ScatterInputGradient | assignment2/cs231n/layers.py:545-556 | the pad_c, pad_i and pad_j loops add, in every channel of example n, the weight each covered input cell meets times dout; pad cells are skipped |
| ConvBackward.AccumulateWeightGradient | assignment2/cs231n/layers.py:541 | dw[f] gains the padded window times dout; other filters are unchanged |
| ConvBackward.AdvanceWeights | assignment2/cs231n/layers.py:541 | after the dw update of window (i, j), dw holds its start plus the weight-gradient prefix sum up to the next cell |
| ConvBackward.AdvanceInputs | assignment2/cs231n/layers.py:543-556 | after the dx update of window (i, j), dx holds its start plus the input-gradient prefix sum up to the next cell |
| ConvBackward.AdvanceBias | assignment2/cs231n/layers.py:559 | after the db update of window (i, j), db[f] holds its start plus the sum of dout up to the next cell |
| ConvBackward.ConvBackwardPlane | assignment2/cs231n/layers.py:527-574 | the while loop of one (example, filter) pair adds that plane's total to dw[f], dx[n] and db[f] and changes nothing else |
| ConvBackward.ConvBackwardExample | assignment2/cs231n/layers.py:524-574 | the filter loop of example n adds every filter's plane to dx[n], dw and db |
| ConvBackward.BackwardSums | assignment2/cs231n/layers.py:514-574 | starting from zeros, dx, dw and db end as the sums DxSpec, DwSpec and DbSpec over all examples, filters and windows |
| ConvBackward.ConvBackwardNaive | assignment2/cs231n/layers.py:487-578 | dx, dw and db have the shapes of x, w and b; dx[n, c, r, q] is the sum over filters and windows of the weight input cell (r, q) meets times dout; dw[f, c, a, b] is the sum over examples and windows of the padded input times dout; db[f] is the sum of dout[:, f] |
| ConvBackward.IdentityAccum | assignment2/cs231n/layers.py:540-559 | for the identity filter, the weight-weighted prefix sum for input cell (r, q) is dout[r, q] once the prefix covers (r, q), and 0 before |
| ConvBackward.IdentityFilterBackward | assignment2/cs231n/layers.py:487-578 | for the identity filter, dx equals dout |
| ConvBackward.UnitAccumIsGridSum | assignment2/cs231n/layers.py:559 | the bias accumulation of a plane is the plain row-major sum of dout over that plane |
| MaxPool.Argmax | assignment2/cs231n/layers.py:697 | `np.argmax` of a non-empty vector is a position holding a maximum, strictly above every entry before it |
| MaxPool.MaxOf | assignment2/cs231n/layers.py:705 | `np.max` bounds every entry from above |
| MaxPool.MaxAtArgmax | assignment2/cs231n/layers.py:697-705 | the maximum is the value at the argmax position |
| MaxPool.ArgmaxCoords | assignment2/cs231n/layers.py:698 | decoding a flat position by the window width gives (row, col) with row * width + col == position and 0 <= col < width |
| MaxPool.DecodeInRange | assignment2/cs231n/layers.py:698 | a position below h * width decodes to a row below h |
| MaxPool.DecodeFlatten | assignment2/cs231n/layers.py:698 | cell (a, b) decodes back from its row-major position a * width + b |
| MaxPool.FlatOrder | assignment2/cs231n/layers.py:697 | row-major order of cells agrees with the order of their flat positions |
| MaxPool.Window | assignment2/cs231n/layers.py:623-627 | `current_X` is a pool_height by pool_width grid |
| MaxPool.WindowInField | assignment2/cs231n/layers.py:692-696 | inside the channel, the window holds the channel's own cells |
| MaxPool.Target | assignment2/cs231n/layers.py:697-702 | the cell that receives the gradient, decoded by the width, lies in the window, holds a maximum, and is strictly above every cell before it in row-major order |
| MaxPool.WindowMax | assignment2/cs231n/layers.py:628 | the pooled value bounds the window and is the value at the window's first maximum |
| MaxPool.PoolAtIsWindowMax | assignment2/cs231n/layers.py:621-631 | each output cell's window lies inside the channel, the output is >= every input cell of the window, and equals the input at the window's first maximum |
| MaxPool.MaxPoolForwardPlane | assignment2/cs231n/layers.py:617-643 | the while loop of one (example, channel) pair writes every cell of out[n, c] with its window maximum and no other cell |
| MaxPool.MaxPoolForwardNaive | assignment2/cs231n/layers.py:581-649 | out is (N, C, 1 + (H - pool_height) / stride, 1 + (W - pool_width) / stride) and out[n, c, i, j] is the maximum of the window at (i * stride, j * stride) |
| MaxPool.OneHot | assignment2/cs231n/layers.py:700-702 | `update_x` is zero except for g at the argmax cell |
| MaxPool.RouteWindow | assignment2/cs231n/layers.py:692-715 | one window adds its whole upstream gradient to its first maximum and changes no other cell of dx |
| MaxPool.RoutedStep | assignment2/cs231n/layers.py:708-715 | visiting output cell (i, j) adds its upstream gradient to the routed sum of exactly the input cell that is its window's first maximum |
| MaxPool.RoutedWindowStep | assignment2/cs231n/layers.py:708-715 | RoutedStep for every input cell at once, with the window corner given as (i * stride, j * stride) |
| MaxPool.AdvanceRoute | assignment2/cs231n/layers.py:692-715 | after window (i, j), dx holds its start plus the routed prefix sum up to the next cell |
| MaxPool.MaxPoolBackwardPlane | assignment2/cs231n/layers.py:686-727 | the while loop of one (example, channel) pair adds the routed gradient of that plane to dx[n, c] and changes nothing else |
| MaxPool.BackwardRoutes | assignment2/cs231n/layers.py:676-727 | starting from zeros, dx ends holding every plane's routed gradient |
| MaxPool.MaxPoolBackwardNaive | assignment2/cs231n/layers.py:652-731 | dx has the shape of x, and dx[n, c, r, q] is the sum of dout over the windows of plane (n, c) whose first maximum is (r, q) |
| MaxPool.RoutedGrid | assignment2/cs231n/layers.py:710-715 | the grid of routed sums is the channel's size and holds, per cell, what that cell has received |
| MaxPool.RoutedGridStep | assignment2/cs231n/layers.py:710-715 | one window changes the routed grid by adding its gradient at one cell, its first maximum |
| MaxPool.RoutedMass | assignment2/cs231n/layers.py:690-727 | after any prefix of windows, the routed grid sums to the sum of dout over that prefix |
| MaxPool.MaxPoolBackwardConservesMass | assignment2/cs231n/layers.py:652-731 | each plane of dx sums to the sum of the same plane of dout |
| MaxPool.TargetAsWritten | assignment2/cs231n/layers.py:697-698 | the flat argmax decoded by the window height, as line 698 does it, is the first maximum when the pool is square |
| MaxPool.AsWrittenMisroutesWidePool | assignment2/cs231n/layers.py:698 | on a 2 by 3 pool with maximum at (0, 2), the height-based decoding names (1, 0), a smaller cell |
| MaxPool.AsWrittenLeavesWidePool | assignment2/cs231n/layers.py:698-702 | on a 2 by 3 pool with maximum at (1, 2), the height-based decoding names row 2, outside the window |
| Relu.Rect0 | assignment2/cs231n/layers.py:97 | max(0, v) is >= 0, >= v, and is one of v and 0 |
| Relu.Mask | assignment2/cs231n/layers.py:120 | the mask is 1 iff v > 0 and 0 iff v <= 0 |
| Relu.ReluForward | assignment2/cs231n/layers.py:82-102 | out has x's size, is >= 0 and >= x, equals x iff x >= 0, and is 0 iff x <= 0 |
| Relu.ReluBackward | assignment2/cs231n/layers.py:105-124 | dx is dout where x > 0 and 0 where x <= 0, x == 0 included |
| Relu.ReluIdempotent | assignment2/cs231n/layers.py:97 | applying the ReLU twice equals applying it once |
| Relu.ReluSplitsSign | assignment2/cs231n/layers.py:97 | x == relu(x) - relu(-x) |
| Relu.ReluEuler | assignment2/cs231n/layers.py:97-120 | sum(dx * x) == sum(dout * relu(x)): the backward mask is the slope of the forward map |
| Relu.ReluLocalSlope | assignment2/cs231n/layers.py:120 | a shift t that does not cross 0 changes the output by t times the mask |
| Svm.Margin | assignment2/cs231n/layers.py:829-831 | each margin is >= 0; the correct class's is 0; another class's is >= x[c] - x[y] + 1, positive iff that is, and equal to it when positive |
| Svm.Margins | assignment2/cs231n/layers.py:829-831 | the margins form an N by C grid of those margins |
| Svm.CountPositive | assignment2/cs231n/layers.py:833 | the count of positive margins among k entries is at most k |
| Svm.NumPos | assignment2/cs231n/layers.py:833 | num_pos[n] counts the positive margins of row n and is below C, since the correct class's margin is 0 |
| Svm.Grad | assignment2/cs231n/layers.py:834-837 | dx[n, c] is 1/N for a positive-margin class, 0 for another non-label class, and -num_pos/N for the label |
| Svm.Grads | assignment2/cs231n/layers.py:834-837 | the gradient is an N by C grid of those entries |
| Svm.HingeMargins | assignment2/cs231n/layers.py:829-831 | the array written by the two vectorised updates holds exactly the margins |
| Svm.ZeroCorrect | assignment2/cs231n/layers.py:831 | the correct class of every row is set to 0 and every other cell keeps its value |
| Svm.MarginGradient | assignment2/cs231n/layers.py:833-837 | the masked updates of dx leave (1 if margin > 0) minus num_pos at the label, divided by N |
| Svm.SvmLoss | assignment2/cs231n/layers.py:814-838 | loss is the sum of the margins over N and dx is the gradient above |
| Svm.Loss | assignment2/cs231n/layers.py:832 | the loss is the sum of the margins divided by N; SvmLossNonNegative states that it is >= 0 |
| Svm.SvmLossNonNegative | assignment2/cs231n/layers.py:832 | the loss is >= 0 |
| Svm.GradRowPrefix | assignment2/cs231n/layers.py:833-837 | the first k entries of row n of dx sum to (positive margins among them, minus num_pos if the label is among them) over N |
| Svm.SvmGradRowsSumToZero | assignment2/cs231n/layers.py:833-837 | each row of dx sums to 0 |
| Affine.ProductSplit | assignment2/cs231n/layers.py:27-35 | the element count of x is N times D, the product of the non-batch dimensions |
| Affine.FlattenedDim | assignment2/cs231n/layers.py:27-33 | the loop that skips index 0 leaves D equal to the product of the dimensions after the first |
| Affine.Rows | assignment2/cs231n/layers.py:35 | `reshape(N, D)` gives an N by D grid |
| Affine.FlattenRows | assignment2/cs231n/layers.py:35 | reading the reshaped rows back in row-major order gives the original contents |
| Affine.RowsFlatten | assignment2/cs231n/layers.py:73 | reshaping the row-major contents of an N by D grid gives the grid back |
| Affine.RowsIndex | assignment2/cs231n/layers.py:35 | element (n, d) of the reshaped rows is element n * D + d of the contents |
| Affine.Flattened | assignment2/cs231n/layers.py:35 | `x.reshape(N, D)` is an N by D grid |
| Affine.Transpose | assignment2/cs231n/layers.py:73 | `w.T` is M by D with entry (m, d) equal to w[d, m] |
| Affine.MatMul | assignment2/cs231n/layers.py:36 | `np.dot(A, B)` is |A| by M with entry (n, m) the dot product of row n of A and column m of B |
| Affine.AffineForward | assignment2/cs231n/layers.py:4-41 | out is N by M and out[n, m] is the sum over d of w[d, m] times x_flat[n, d], plus b[m]; the cache is (x, w, b) |
| Affine.AffineBackward | assignment2/cs231n/layers.py:44-79 | dx has exactly x's shape and its flattened rows are dout w^T; dw is D by M and equals x_flat^T dout; db[m] is the sum over n of dout[n, m] |
| Affine.ColumnTotals | assignment2/cs231n/layers.py:74 | entry m is the sum of column m over the first k rows |
| Affine.TransposedRowSum | assignment2/cs231n/layers.py:74 | summing row m of dout.T sums column m of dout |
| Affine.InputAdjoint | assignment2/cs231n/layers.py:73 | <dout, X W> == <dout W^T, X> for every X: the input gradient is the adjoint of the forward map |
| Affine.WeightAdjoint | assignment2/cs231n/layers.py:75 | <dout, X W> == <X^T dout, W> for every W: the weight gradient is the adjoint of the forward map |
| Affine.BiasAdjoint | assignment2/cs231n/layers.py:74 | <dout, b broadcast over the rows> == <db, b>: the bias gradient is the adjoint of the broadcast |

## Left out

- Floating point: values are exact reals, so rounding, overflow, `nan` and `inf` are not modelled.
- `batchnorm_forward`, `batchnorm_backward` and `batchnorm_backward_alt` are not part of this model. They depend on `np.sqrt`, `eps` and floating-point division; the last one is an empty `pass`.
- `spatial_batchnorm_forward` and `spatial_batchnorm_backward` are not part of this model. They are a layout permutation around batch normalisation.
- `dropout_forward` and `dropout_backward` are not part of this model: they sample from the global `np.random` generator.
- `softmax_loss` is not part of this model: it needs `np.exp` and `np.log`.
- numpy itself is not modelled. Its effects are: zero padding (`Padding.Padded`), `int(np.true_divide(...))` (Euclidean `/` on the non-negative sizes), `np.argmax` / `np.max` (`MaxPool.Argmax`, `MaxPool.MaxOf`), `reshape` (`Affine.Rows`), `np.dot` (`Affine.MatMul`) and `np.sum` (prefix sums).
- ConvForward.ConvForwardNaive, ConvBackward.ConvBackwardNaive, MaxPool.MaxPoolForwardNaive, MaxPool.MaxPoolBackwardNaive: these require `Sweep.Tiles`. That means a positive stride, a non-empty window no larger than the field, and (field width - window width) divisible by the stride. When the width division is inexact, the source's counters fall out of step: the start column wraps one step later than the output column, so out_i moves on while start_i does not. That input is not modelled. No condition is put on the height: the start row moves only when the start column wraps, and the loop guard stops after the right number of rows (`Sweep.GuardExact`). An empty window is not modelled either. Neither is a window larger than the field, for which the source computes an output size of zero or less.
- ConvForward.ConvForwardNaive, ConvBackward.ConvBackwardNaive: these also require the channel count of w to equal that of x. When one of the two counts is 1, numpy broadcasts the product `current_X * current_w` and the forward pass returns a value this model does not cover. When both counts are above 1, the product cannot broadcast. The backward pass then raises at line 538, before any update. When only w has one channel, the backward pass raises at the in-place `dw` update of line 541, which cannot broadcast x's channels into one. When only x has one channel, line 508 sets C to w's channel count, and the `dx` write of line 553 raises an index error at channel 1.
- ConvBackward.ConvBackwardNaive, MaxPool.MaxPoolBackwardNaive: these require dout to have the shape (N, F or C, H', W') that the forward pass produces.
- The backward kernels recompute `out` / `current_result` into a local array that is never returned (lines 538, 562, 705-706). That dead computation is not modelled.
- MaxPool.MaxPoolBackwardNaive uses the width-based decoding of the argmax (see Findings). The source is read as Python 2 code, where `/` on two integers is integer division. Under Python 3 the quotient at line 698 is a float, which numpy refuses as an index for every pool. On square pools this is exactly the source's behaviour (`MaxPool.TargetAsWritten`). On other pools the source misroutes the gradient or indexes outside `update_x`.
- Svm.SvmLoss: requires N > 0. With N == 0, numpy divides by zero and returns `nan` (floating point, out of scope). It also requires every label to be in [0, C), as the function's documentation demands. A negative label down to -C indexes from the end of the row in numpy, and that behaviour is not modelled.
- Relu.ReluForward: returns only `out`. The source also returns `cache`, which is `x` itself; ReluBackward takes that `x` as its argument.
- Relu.ReluForward, Relu.ReluBackward: these work on the row-major contents of an array of any shape, because the operations are elementwise and the shape passes through unchanged.
- Affine.AffineForward: requires b to have exactly M entries. numpy's broadcasting would also accept a single-entry b, and that case is not modelled.
- Affine.AffineForward, Affine.AffineBackward: these take and return values rather than numpy buffers, because nothing in them is updated in place. Only `D` is accumulated by a loop, and that loop is the method `Affine.FlattenedDim`.

## Findings

| source | as written | input that shows it | evidently intended | confidence | as-written member | corrected member |
|---|---|---|---|---|---|---|
| assignment2/cs231n/layers.py:698 | `max_i, max_j = idx / current_X.shape[0], idx % current_X.shape[0]` decodes the flat argmax with the pool height, with `/` read as Python 2 integer division | pool_height 2, pool_width 3, window [[0, 0, 1], [0, 0, 0]]: the argmax is 2, which decodes to (1, 0) instead of (0, 2); window [[0, 0, 0], [0, 0, 1]]: the argmax is 5, which decodes to (2, 1), a row the 2-row `update_x` does not have | decode with the window width, `current_X.shape[1]` | high on the arithmetic, not executed | MaxPool.TargetAsWritten, MaxPool.AsWrittenMisroutesWidePool, MaxPool.AsWrittenLeavesWidePool | MaxPool.Target, MaxPool.ArgmaxCoords, MaxPool.RouteWindow |
