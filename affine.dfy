/** `affine_forward` and `affine_backward` of layers.py: the trailing
    dimensions of each example are flattened into D = d_1 * ... * d_k
    columns, and the layer is the matrix product with w (D by M) plus the
    bias b broadcast over the rows. */
module Affine {
  import opened Grids

  /** A numpy array: its shape and its elements in row-major order. */
  datatype NdArray = NdArray(shape: seq<nat>, data: seq<real>)

  /** Product of the dimensions, multiplied from the left as the source's
      loop does; 1 for no dimensions. */
  function Product(dims: seq<nat>): nat {
    if |dims| == 0 then 1 else Product(dims[..|dims| - 1]) * dims[|dims| - 1]
  }

  /** The array holds as many elements as its shape says. */
  predicate Valid(a: NdArray) {
    |a.data| == Product(a.shape)
  }

  /** The elements are the batch dimension times the rest: N * D. */
  lemma {:induction false} ProductSplit(dims: seq<nat>)
    requires |dims| >= 1
    ensures Product(dims) == dims[0] * Product(dims[1..])
    decreases |dims|
  {
    if |dims| > 1 {
      var k := |dims|;
      ProductSplit(dims[..k - 1]);
      assert dims[..k - 1][1..] == dims[1..][..k - 2];
      assert dims[..k - 1][0] == dims[0];
      var inner := Product(dims[1..][..k - 2]);
      assert Product(dims[1..]) == inner * dims[k - 1];
      assert Product(dims) == (dims[0] * inner) * dims[k - 1];
      assert (dims[0] * inner) * dims[k - 1] == dims[0] * (inner * dims[k - 1]);
    } else {
      assert dims[1..] == [];
    }
  }

  /** Lines 27-32 (and 64-69): D starts at 1 and is multiplied by every
      dimension after the first. */
  method FlattenedDim(shape: seq<nat>) returns (D: nat)
    requires |shape| >= 1
    ensures D == Product(shape[1..])
  {
    D := 1;
    for index := 0 to |shape|
      invariant D == if index == 0 then 1 else Product(shape[1..index])
    {
      if index == 0 {
        assert shape[1..1] == [];
        continue;
      } else {
        assert shape[1..index + 1][..index - 1] == shape[1..index];
        D := D * shape[index];
      }
    }
    assert shape[1..|shape|] == shape[1..];
  }

  /** `reshape(N, D)` of row-major contents: N rows of D elements. */
  function Rows(data: seq<real>, N: nat, D: nat): (A: seq<seq<real>>)
    requires |data| == N * D
    ensures Rect(A, N, D)
    decreases N
  {
    if N == 0 then []
    else
      assert N * D == (N - 1) * D + D;
      [data[..D]] + Rows(data[D..], N - 1, D)
  }

  /** Reading the rows back in row-major order gives the contents. */
  lemma {:induction false} FlattenRows(data: seq<real>, N: nat, D: nat)
    requires |data| == N * D
    ensures Flatten(Rows(data, N, D)) == data
    decreases N
  {
    if N > 0 {
      assert N * D == (N - 1) * D + D;
      FlattenRows(data[D..], N - 1, D);
      var A := Rows(data, N, D);
      assert A[1..] == Rows(data[D..], N - 1, D);
      assert data == data[..D] + data[D..];
    }
  }

  /** Cutting a grid's row-major contents into rows of its width gives back the grid. */
  lemma {:induction false} RowsFlatten(A: seq<seq<real>>, D: nat)
    requires Rect(A, |A|, D)
    ensures |Flatten(A)| == |A| * D && Rows(Flatten(A), |A|, D) == A
    decreases |A|
  {
    FlattenLength(A, D);
    if |A| > 0 {
      RowsFlatten(A[1..], D);
      var s := Flatten(A);
      assert s == A[0] + Flatten(A[1..]);
      assert s[..D] == A[0] && s[D..] == Flatten(A[1..]);
    }
  }

  /** Element (n, d) of the reshaped rows is element n * D + d of the contents. */
  lemma RowsIndex(data: seq<real>, N: nat, D: nat, n: nat, d: nat)
    requires |data| == N * D && n < N && d < D
    ensures n * D + d < |data| && Rows(data, N, D)[n][d] == data[n * D + d]
  {
    FlattenRows(data, N, D);
    FlattenIndex(Rows(data, N, D), D, n, d);
  }

  /** `x.reshape(N, D)` with D the product of the trailing dimensions. */
  function Flattened(x: NdArray): (X: seq<seq<real>>)
    requires Valid(x) && |x.shape| >= 1
    ensures Rect(X, x.shape[0], Product(x.shape[1..]))
  {
    ProductSplit(x.shape);
    Rows(x.data, x.shape[0], Product(x.shape[1..]))
  }

  /** `w.T`: the M by |B| transpose of a |B| by M grid. */
  function Transpose(B: seq<seq<real>>, M: nat): (T: seq<seq<real>>)
    requires Rect(B, |B|, M)
    ensures Rect(T, M, |B|)
    ensures forall m, d :: 0 <= m < M && 0 <= d < |B| ==> T[m][d] == B[d][m]
  {
    seq(M, m requires 0 <= m < M => seq(|B|, d requires 0 <= d < |B| => B[d][m]))
  }

  /** `np.dot(K, v)` of a grid with a vector: entry p is row p of K dotted
      with the first Q entries of v. */
  function MatVec(K: seq<seq<real>>, v: seq<real>, Q: nat): (y: seq<real>)
    requires Rect(K, |K|, Q) && Q <= |v|
    ensures |y| == |K|
  {
    seq(|K|, p requires 0 <= p < |K| => RowDot(K[p], v, Q))
  }

  /** `np.dot(A, B)` of an |A| by K grid and a K by M grid: row n of the
      product is B transposed applied to row n of A. */
  function MatMul(A: seq<seq<real>>, B: seq<seq<real>>, K: nat, M: nat): (P: seq<seq<real>>)
    requires Rect(A, |A|, K) && Rect(B, K, M)
    ensures Rect(P, |A|, M)
    ensures forall n, m :: 0 <= n < |A| && 0 <= m < M ==> P[n][m] == RowDot(Transpose(B, M)[m], A[n], K)
  {
    seq(|A|, n requires 0 <= n < |A| => MatVec(Transpose(B, M), A[n], K))
  }

  /** Sum of the first k entries of column m. */
  function ColumnSum(G: seq<seq<real>>, m: nat, k: nat): real
    requires k <= |G| && forall n :: 0 <= n < |G| ==> m < |G[n]|
  {
    if k == 0 then 0.0 else ColumnSum(G, m, k - 1) + G[k - 1][m]
  }

  /** What the forward pass hands to the backward pass: (x, w, b). */
  datatype AffineCache = AffineCache(x: NdArray, w: seq<seq<real>>, b: seq<real>)

  /** x is a valid array of at least one dimension whose rows w can multiply. */
  predicate Compatible(x: NdArray, w: seq<seq<real>>, M: nat) {
    Valid(x) && |x.shape| >= 1 && Rect(w, Product(x.shape[1..]), M)
  }

  /** `affine_forward`: out is N by M, and row n of out is row n of the
      flattened x times w, plus b. */
  method AffineForward(x: NdArray, w: seq<seq<real>>, b: seq<real>) returns (out: seq<seq<real>>, cache: AffineCache)
    requires Compatible(x, w, |b|)
    ensures cache == AffineCache(x, w, b)
    ensures Rect(out, x.shape[0], |b|)
    ensures forall n, m :: 0 <= n < x.shape[0] && 0 <= m < |b| ==>
              out[n][m] == RowDot(Transpose(w, |b|)[m], Flattened(x)[n], |w|) + b[m]
  {
    var D := FlattenedDim(x.shape);
    var N := x.shape[0];
    ProductSplit(x.shape);
    var xFlattened := Flattened(x);
    var product := MatMul(xFlattened, w, D, |b|);
    out := seq(N, n requires 0 <= n < N => seq(|b|, m requires 0 <= m < |b| => product[n][m] + b[m]));
    cache := AffineCache(x, w, b);
  }

  /** `affine_backward`: dx has exactly the shape of x and holds dout times
      w transposed, reshaped; dw is the D by M product of the flattened x
      transposed with dout; db[m] is the sum over n of dout[n][m]. */
  method AffineBackward(dout: seq<seq<real>>, cache: AffineCache) returns (dx: NdArray, dw: seq<seq<real>>, db: seq<real>)
    requires Compatible(cache.x, cache.w, |cache.b|) && Rect(dout, cache.x.shape[0], |cache.b|)
    ensures dx.shape == cache.x.shape && Valid(dx)
    ensures Flattened(dx) == MatMul(dout, Transpose(cache.w, |cache.b|), |cache.b|, |cache.w|)
    ensures dw == MatMul(Transpose(Flattened(cache.x), |cache.w|), dout, |dout|, |cache.b|)
    ensures db == ColumnTotals(dout, |cache.b|, |dout|)
  {
    var x, w := cache.x, cache.w;
    var M := |cache.b|;
    var D := FlattenedDim(x.shape);
    var N := x.shape[0];
    ProductSplit(x.shape);
    var dxRows := MatMul(dout, Transpose(w, M), M, D);
    FlattenLength(dxRows, D);
    RowsFlatten(dxRows, D);
    dx := NdArray(x.shape, Flatten(dxRows));
    var doutT := Transpose(dout, M);
    db := seq(M, m requires 0 <= m < M => RowSum(doutT[m], N));
    dw := MatMul(Transpose(Flattened(x), D), dout, N, M);
    forall m | 0 <= m < M
      ensures db[m] == ColumnSum(dout, m, N)
    {
      TransposedRowSum(dout, M, m, N);
    }
  }

  /** The sums of the first k rows' entries, column by column: `np.sum(G[:k], axis=0)`. */
  function ColumnTotals(G: seq<seq<real>>, w: nat, k: nat): (t: seq<real>)
    requires Rect(G, |G|, w) && k <= |G|
    ensures |t| == w && forall q :: 0 <= q < w ==> t[q] == ColumnSum(G, q, k)
  {
    seq(w, q requires 0 <= q < w => ColumnSum(G, q, k))
  }

  /** Summing row m of the transpose sums column m. */
  lemma {:induction false} TransposedRowSum(G: seq<seq<real>>, M: nat, m: nat, k: nat)
    requires Rect(G, |G|, M) && m < M && k <= |G|
    ensures RowSum(Transpose(G, M)[m], k) == ColumnSum(G, m, k)
  {
    if k > 0 {
      TransposedRowSum(G, M, m, k - 1);
    }
  }

  /** The sum of each row of a grid. */
  function RowTotals(T: seq<seq<real>>, w: nat): (t: seq<real>)
    requires Rect(T, |T|, w)
    ensures |t| == |T| && forall p :: 0 <= p < |T| ==> t[p] == RowSum(T[p], w)
  {
    seq(|T|, p requires 0 <= p < |T| => RowSum(T[p], w))
  }

  /** The dot product of each pair of corresponding rows of two grids. */
  function RowDots(A: seq<seq<real>>, B: seq<seq<real>>, w: nat): (t: seq<real>)
    requires Rect(A, |A|, w) && Rect(B, |A|, w)
    ensures |t| == |A| && forall p :: 0 <= p < |A| ==> t[p] == RowDot(A[p], B[p], w)
  {
    seq(|A|, p requires 0 <= p < |A| => RowDot(A[p], B[p], w))
  }

  /** Transposing twice gives the grid back. */
  lemma TransposeTwice(B: seq<seq<real>>, M: nat)
    requires Rect(B, |B|, M)
    ensures Transpose(Transpose(B, M), |B|) == B
  {
    var T := Transpose(Transpose(B, M), |B|);
    forall d | 0 <= d < |B|
      ensures T[d] == B[d]
    {
    }
  }

  lemma {:induction false} RowDotSymmetric(u: seq<real>, v: seq<real>, k: nat)
    requires k <= |u| && k <= |v|
    ensures RowDot(u, v, k) == RowDot(v, u, k)
  {
    if k > 0 {
      RowDotSymmetric(u, v, k - 1);
    }
  }

  /** A sum of a[i] * b[i] is the dot product of a and b. */
  lemma {:induction false} RowSumOfProducts(t: seq<real>, a: seq<real>, b: seq<real>, k: nat)
    requires k <= |t| && k <= |a| && k <= |b|
    requires forall i :: 0 <= i < k ==> t[i] == a[i] * b[i]
    ensures RowSum(t, k) == RowDot(a, b, k)
  {
    if k > 0 {
      RowSumOfProducts(t, a, b, k - 1);
    }
  }

  /** The sum of an entrywise sum is the sum of the sums. */
  lemma {:induction false} RowSumAdd(t: seq<real>, a: seq<real>, b: seq<real>, k: nat)
    requires k <= |t| && k <= |a| && k <= |b|
    requires forall i :: 0 <= i < k ==> t[i] == a[i] + b[i]
    ensures RowSum(t, k) == RowSum(a, k) + RowSum(b, k)
  {
    if k > 0 {
      RowSumAdd(t, a, b, k - 1);
    }
  }

  lemma {:induction false} RowSumZero(t: seq<real>, k: nat)
    requires k <= |t| && forall i :: 0 <= i < k ==> t[i] == 0.0
    ensures RowSum(t, k) == 0.0
  {
    if k > 0 {
      RowSumZero(t, k - 1);
    }
  }

  /** Adding up the first k rows of a grid row by row or column by column
      gives the same total. */
  lemma {:induction false} SumByRowsIsSumByColumns(T: seq<seq<real>>, w: nat, k: nat)
    requires Rect(T, |T|, w) && k <= |T|
    ensures RowSum(RowTotals(T, w), k) == RowSum(ColumnTotals(T, w, k), w)
  {
    if k == 0 {
      RowSumZero(ColumnTotals(T, w, 0), w);
    } else {
      SumByRowsIsSumByColumns(T, w, k - 1);
      RowSumAdd(ColumnTotals(T, w, k), ColumnTotals(T, w, k - 1), T[k - 1], w);
    }
  }

  /** The inner product of two grids, taken over their first i rows, is the
      sum of their row-by-row dot products. */
  lemma {:induction false} GridDotByRows(A: seq<seq<real>>, B: seq<seq<real>>, w: nat, i: nat)
    requires Rect(A, |A|, w) && Rect(B, |A|, w) && i <= |A|
    ensures GridDot(A, B, w, i, 0) == RowSum(RowDots(A, B, w), i)
  {
    if i > 0 {
      GridDotByRows(A, B, w, i - 1);
      GridDotRow(A, B, w, i - 1, w);
    }
  }

  /** The grid of terms u[p] * K[p][q] * v[q] of the bilinear form u K v. */
  function Outer(u: seq<real>, K: seq<seq<real>>, v: seq<real>, Q: nat): (T: seq<seq<real>>)
    requires Rect(K, |K|, Q) && |u| == |K| && |v| == Q
    ensures Rect(T, |K|, Q)
  {
    seq(|K|, p requires 0 <= p < |K| => seq(Q, q requires 0 <= q < Q => u[p] * (K[p][q] * v[q])))
  }

  /** The first k terms of row p add up to u[p] times row p of K dotted
      with v over those k entries. */
  lemma {:induction false} OuterRowSum(u: seq<real>, K: seq<seq<real>>, v: seq<real>, Q: nat, p: nat, k: nat)
    requires Rect(K, |K|, Q) && |u| == |K| && |v| == Q && p < |K| && k <= Q
    ensures RowSum(Outer(u, K, v, Q)[p], k) == u[p] * RowDot(K[p], v, k)
  {
    if k > 0 {
      OuterRowSum(u, K, v, Q, p, k - 1);
      var T := Outer(u, K, v, Q);
      assert T[p][k - 1] == u[p] * (K[p][k - 1] * v[k - 1]);
      assert u[p] * RowDot(K[p], v, k) == u[p] * RowDot(K[p], v, k - 1) + u[p] * (K[p][k - 1] * v[k - 1]);
    }
  }

  /** The first k terms of column q add up to v[q] times column q of K
      dotted with u over those k entries. */
  lemma {:induction false} OuterColumnSum(u: seq<real>, K: seq<seq<real>>, v: seq<real>, Q: nat, q: nat, k: nat)
    requires Rect(K, |K|, Q) && |u| == |K| && |v| == Q && q < Q && k <= |K|
    ensures ColumnSum(Outer(u, K, v, Q), q, k) == v[q] * RowDot(Transpose(K, Q)[q], u, k)
  {
    if k > 0 {
      OuterColumnSum(u, K, v, Q, q, k - 1);
      var T, KT := Outer(u, K, v, Q), Transpose(K, Q);
      assert T[k - 1][q] == u[k - 1] * (K[k - 1][q] * v[q]);
      assert KT[q][k - 1] == K[k - 1][q];
      assert v[q] * RowDot(KT[q], u, k) == v[q] * RowDot(KT[q], u, k - 1) + v[q] * (K[k - 1][q] * u[k - 1]);
    }
  }

  /** Summed row by row, the first k rows of terms give the first k terms of u (K v). */
  lemma {:induction false} OuterRows(u: seq<real>, K: seq<seq<real>>, v: seq<real>, Q: nat, k: nat)
    requires Rect(K, |K|, Q) && |u| == |K| && |v| == Q && k <= |K|
    ensures RowSum(RowTotals(Outer(u, K, v, Q), Q), k) == RowDot(u, MatVec(K, v, Q), k)
  {
    if k > 0 {
      OuterRows(u, K, v, Q, k - 1);
      OuterRowSum(u, K, v, Q, k - 1, Q);
      assert RowTotals(Outer(u, K, v, Q), Q)[k - 1] == RowSum(Outer(u, K, v, Q)[k - 1], Q);
      assert MatVec(K, v, Q)[k - 1] == RowDot(K[k - 1], v, Q);
    }
  }

  /** Summed column by column, the first k columns of terms give the first
      k terms of (K^T u) v. */
  lemma {:induction false} OuterColumns(u: seq<real>, K: seq<seq<real>>, v: seq<real>, Q: nat, k: nat)
    requires Rect(K, |K|, Q) && |u| == |K| && |v| == Q && k <= Q
    ensures RowSum(ColumnTotals(Outer(u, K, v, Q), Q, |K|), k) == RowDot(MatVec(Transpose(K, Q), u, |K|), v, k)
  {
    if k > 0 {
      OuterColumns(u, K, v, Q, k - 1);
      OuterColumnSum(u, K, v, Q, k - 1, |K|);
      var KTu := MatVec(Transpose(K, Q), u, |K|);
      assert ColumnTotals(Outer(u, K, v, Q), Q, |K|)[k - 1] == ColumnSum(Outer(u, K, v, Q), k - 1, |K|);
      assert KTu[k - 1] == RowDot(Transpose(K, Q)[k - 1], u, |K|);
      assert v[k - 1] * KTu[k - 1] == KTu[k - 1] * v[k - 1];
    }
  }

  /** u (K v) == (K^T u) v: a bilinear form can be summed over either index first. */
  lemma BilinearSwap(u: seq<real>, K: seq<seq<real>>, v: seq<real>, Q: nat)
    requires Rect(K, |K|, Q) && |u| == |K| && |v| == Q
    ensures RowDot(u, MatVec(K, v, Q), |K|) == RowDot(MatVec(Transpose(K, Q), u, |K|), v, Q)
  {
    OuterRows(u, K, v, Q, |K|);
    OuterColumns(u, K, v, Q, Q);
    SumByRowsIsSumByColumns(Outer(u, K, v, Q), Q, |K|);
  }

  /** g (W^T x) == (W g) x for one row g of dout and one row x of the input. */
  lemma RowAdjoint(g: seq<real>, x: seq<real>, W: seq<seq<real>>, M: nat)
    requires Rect(W, |W|, M) && |g| == M && |x| == |W|
    ensures RowDot(g, MatVec(Transpose(W, M), x, |W|), M) == RowDot(MatVec(W, g, M), x, |W|)
  {
    BilinearSwap(g, Transpose(W, M), x, |W|);
    TransposeTwice(W, M);
  }

  /** The input gradient dout W^T is the adjoint of x -> x W: pairing it with
      any input X gives the same as pairing dout with X W. */
  lemma InputAdjoint(G: seq<seq<real>>, X: seq<seq<real>>, W: seq<seq<real>>, D: nat, M: nat)
    requires Rect(X, |X|, D) && Rect(W, D, M) && Rect(G, |X|, M)
    ensures GridDot(G, MatMul(X, W, D, M), M, |G|, 0) == GridDot(MatMul(G, Transpose(W, M), M, D), X, D, |G|, 0)
  {
    TransposeTwice(W, M);
    var left := RowDots(G, MatMul(X, W, D, M), M);
    var right := RowDots(MatMul(G, Transpose(W, M), M, D), X, D);
    forall n | 0 <= n < |G|
      ensures left[n] == right[n]
    {
      RowAdjoint(G[n], X[n], W, M);
    }
    assert left == right;
    GridDotByRows(G, MatMul(X, W, D, M), M, |G|);
    GridDotByRows(MatMul(G, Transpose(W, M), M, D), X, D, |G|);
  }

  /** The entrywise product of two grids. */
  function Hadamard(A: seq<seq<real>>, B: seq<seq<real>>, w: nat): (H: seq<seq<real>>)
    requires Rect(A, |A|, w) && Rect(B, |A|, w)
    ensures Rect(H, |A|, w)
    ensures forall n, m :: 0 <= n < |A| && 0 <= m < w ==> H[n][m] == A[n][m] * B[n][m]
  {
    seq(|A|, n requires 0 <= n < |A| => seq(w, m requires 0 <= m < w => A[n][m] * B[n][m]))
  }

  /** Summing the entrywise product by rows gives the row-by-row dot
      products, and by columns the dot products of the transposes' rows. */
  lemma HadamardTotals(A: seq<seq<real>>, B: seq<seq<real>>, w: nat)
    requires Rect(A, |A|, w) && Rect(B, |A|, w)
    ensures RowTotals(Hadamard(A, B, w), w) == RowDots(A, B, w)
    ensures ColumnTotals(Hadamard(A, B, w), w, |A|) == RowDots(Transpose(A, w), Transpose(B, w), |A|)
  {
    var H := Hadamard(A, B, w);
    var HT, AT, BT := Transpose(H, w), Transpose(A, w), Transpose(B, w);
    forall n | 0 <= n < |A|
      ensures RowSum(H[n], w) == RowDot(A[n], B[n], w)
    {
      RowSumOfProducts(H[n], A[n], B[n], w);
    }
    forall m | 0 <= m < w
      ensures ColumnSum(H, m, |A|) == RowDot(AT[m], BT[m], |A|)
    {
      TransposedRowSum(H, w, m, |A|);
      RowSumOfProducts(HT[m], AT[m], BT[m], |A|);
    }
  }

  /** The inner product of two grids is that of their transposes. */
  lemma GridDotTranspose(A: seq<seq<real>>, B: seq<seq<real>>, w: nat)
    requires Rect(A, |A|, w) && Rect(B, |A|, w)
    ensures GridDot(A, B, w, |A|, 0) == GridDot(Transpose(A, w), Transpose(B, w), |A|, w, 0)
  {
    HadamardTotals(A, B, w);
    SumByRowsIsSumByColumns(Hadamard(A, B, w), w, |A|);
    GridDotByRows(A, B, w, |A|);
    GridDotByRows(Transpose(A, w), Transpose(B, w), |A|, w);
  }

  /** (A B)^T == B^T A^T. */
  lemma MatMulTranspose(A: seq<seq<real>>, B: seq<seq<real>>, K: nat, M: nat)
    requires Rect(A, |A|, K) && Rect(B, K, M)
    ensures Transpose(MatMul(A, B, K, M), M) == MatMul(Transpose(B, M), Transpose(A, K), K, |A|)
  {
    TransposeTwice(A, K);
    var L, R := Transpose(MatMul(A, B, K, M), M), MatMul(Transpose(B, M), Transpose(A, K), K, |A|);
    forall m, n | 0 <= m < M && 0 <= n < |A|
      ensures L[m][n] == R[m][n]
    {
      RowDotSymmetric(Transpose(B, M)[m], A[n], K);
    }
    assert forall m | 0 <= m < M :: L[m] == R[m];
  }

  /** The weight gradient X^T dout is the adjoint of w -> X w: pairing it
      with any weights W gives the same as pairing dout with X W. */
  lemma WeightAdjoint(G: seq<seq<real>>, X: seq<seq<real>>, W: seq<seq<real>>, D: nat, M: nat)
    requires Rect(X, |X|, D) && Rect(W, D, M) && Rect(G, |X|, M)
    ensures GridDot(G, MatMul(X, W, D, M), M, |G|, 0) == GridDot(MatMul(Transpose(X, D), G, |G|, M), W, M, D, 0)
  {
    var N := |G|;
    var GT, XT, WT := Transpose(G, M), Transpose(X, D), Transpose(W, M);
    GridDotTranspose(G, MatMul(X, W, D, M), M);
    MatMulTranspose(X, W, D, M);
    TransposeTwice(X, D);
    InputAdjoint(GT, WT, XT, D, N);
    var A := MatMul(GT, X, N, D);
    GridDotTranspose(A, WT, D);
    MatMulTranspose(GT, X, N, D);
    TransposeTwice(G, M);
    TransposeTwice(W, M);
  }

  /** `np.broadcast_to(b, (N, M))`: b repeated on every row. */
  function Broadcast(b: seq<real>, N: nat): (B: seq<seq<real>>)
    ensures Rect(B, N, |b|) && forall n :: 0 <= n < N ==> B[n] == b
  {
    seq(N, n requires 0 <= n < N => b)
  }

  /** The bias gradient, the column sums of dout, is the adjoint of
      b -> b broadcast over the rows. */
  lemma BiasAdjoint(G: seq<seq<real>>, b: seq<real>)
    requires Rect(G, |G|, |b|)
    ensures GridDot(G, Broadcast(b, |G|), |b|, |G|, 0) == RowDot(ColumnTotals(G, |b|, |G|), b, |b|)
  {
    var N, M := |G|, |b|;
    var B := Broadcast(b, N);
    var T := Hadamard(G, B, M);
    HadamardTotals(G, B, M);
    SumByRowsIsSumByColumns(T, M, N);
    BroadcastColumns(G, b, M);
    GridDotByRows(G, B, M, N);
  }

  /** Summed column by column over the first k columns, dout times b
      broadcast gives the first k terms of db . b. */
  lemma {:induction false} BroadcastColumns(G: seq<seq<real>>, b: seq<real>, k: nat)
    requires Rect(G, |G|, |b|) && k <= |b|
    ensures RowSum(ColumnTotals(Hadamard(G, Broadcast(b, |G|), |b|), |b|, |G|), k) == RowDot(ColumnTotals(G, |b|, |G|), b, k)
  {
    if k > 0 {
      BroadcastColumns(G, b, k - 1);
      ColumnSumOfBroadcast(G, b, k - 1, |G|);
      var T := Hadamard(G, Broadcast(b, |G|), |b|);
      assert ColumnTotals(T, |b|, |G|)[k - 1] == ColumnSum(T, k - 1, |G|);
      assert ColumnTotals(G, |b|, |G|)[k - 1] == ColumnSum(G, k - 1, |G|);
    }
  }

  /** Column m of dout times b broadcast sums to b[m] times column m of dout. */
  lemma {:induction false} ColumnSumOfBroadcast(G: seq<seq<real>>, b: seq<real>, m: nat, k: nat)
    requires Rect(G, |G|, |b|) && m < |b| && k <= |G|
    ensures ColumnSum(Hadamard(G, Broadcast(b, |G|), |b|), m, k) == ColumnSum(G, m, k) * b[m]
  {
    if k > 0 {
      ColumnSumOfBroadcast(G, b, m, k - 1);
      var T := Hadamard(G, Broadcast(b, |G|), |b|);
      assert T[k - 1][m] == G[k - 1][m] * b[m];
      assert ColumnSum(G, m, k) * b[m] == ColumnSum(G, m, k - 1) * b[m] + G[k - 1][m] * b[m];
    }
  }
}
