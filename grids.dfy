/** Row-major reductions over rectangular grids of reals.

    Every accumulation the layer kernels perform (the bias, weight and input
    gradients of the convolution, the routed gradient of max pooling) visits
    the cells of an output plane in row-major order; the prefix sums here are
    the specifications those loops are proved against. */
module Grids {

  /** `p` is an `h` by `w` grid. */
  predicate Rect(p: seq<seq<real>>, h: nat, w: nat) {
    |p| == h && forall r :: 0 <= r < h ==> |p[r]| == w
  }

  /** Cell (r, q) comes strictly before cell (i, j) in row-major order. */
  predicate Before(r: int, q: int, i: int, j: int) {
    r < i || (r == i && q < j)
  }

  /** Sum of u[t] * v[t] over t < k. */
  function RowDot(u: seq<real>, v: seq<real>, k: nat): real
    requires k <= |u| && k <= |v|
  {
    if k == 0 then 0.0 else RowDot(u, v, k - 1) + u[k - 1] * v[k - 1]
  }

  /** Sum of A[r][q] * B[r][q] over the cells (r, q) of two `|A|` by `w` grids
      that come before (i, j) in row-major order. */
  function GridDot(A: seq<seq<real>>, B: seq<seq<real>>, w: nat, i: nat, j: nat): real
    requires Rect(A, |A|, w) && Rect(B, |A|, w)
    requires i <= |A| && j <= w && (j > 0 ==> i < |A|)
    decreases i, j
  {
    if j > 0 then GridDot(A, B, w, i, j - 1) + A[i][j - 1] * B[i][j - 1]
    else if i == 0 then 0.0
    else GridDot(A, B, w, i - 1, w)
  }

  /** Sum of A[r][q] over the cells (r, q) of an `|A|` by `w` grid that come
      before (i, j) in row-major order. */
  function GridSum(A: seq<seq<real>>, w: nat, i: nat, j: nat): real
    requires Rect(A, |A|, w)
    requires i <= |A| && j <= w && (j > 0 ==> i < |A|)
    decreases i, j
  {
    if j > 0 then GridSum(A, w, i, j - 1) + A[i][j - 1]
    else if i == 0 then 0.0
    else GridSum(A, w, i - 1, w)
  }

  /** (i, j) bounds a row-major prefix of the rows of G. */
  predicate Prefix(G: seq<seq<real>>, i: nat, j: nat) {
    i <= |G| && (i < |G| ==> j <= |G[i]|) && (i == |G| ==> j == 0)
  }

  /** Sum of v[t] over t < k. */
  function RowSum(v: seq<real>, k: nat): real
    requires k <= |v|
  {
    if k == 0 then 0.0 else RowSum(v, k - 1) + v[k - 1]
  }

  /** A row-major prefix of the inner product is that of the whole rows
      before row i plus the first j products of row i. */
  lemma {:induction false} GridDotRow(A: seq<seq<real>>, B: seq<seq<real>>, w: nat, i: nat, j: nat)
    requires Rect(A, |A|, w) && Rect(B, |A|, w) && i < |A| && j <= w
    ensures GridDot(A, B, w, i, j) == GridDot(A, B, w, i, 0) + RowDot(A[i], B[i], j)
  {
    if j > 0 {
      GridDotRow(A, B, w, i, j - 1);
    }
  }

  /** A grid of non-negative values has non-negative prefix sums. */
  lemma {:induction false} GridSumNonNegative(A: seq<seq<real>>, w: nat, i: nat, j: nat)
    requires Rect(A, |A|, w)
    requires forall r, q :: 0 <= r < |A| && 0 <= q < w ==> A[r][q] >= 0.0
    requires i <= |A| && j <= w && (j > 0 ==> i < |A|)
    ensures GridSum(A, w, i, j) >= 0.0
    decreases i, j
  {
    if j > 0 {
      GridSumNonNegative(A, w, i, j - 1);
    } else if i > 0 {
      GridSumNonNegative(A, w, i - 1, w);
    }
  }

  /** The cell after (i, j) in row-major order over rows of width `w`. */
  function NextCell(w: nat, i: nat, j: nat): (nat, nat) {
    if j + 1 == w then (i + 1, 0) else (i, j + 1)
  }

  /** The grid `A` with `g` added to its cell (r, q). */
  function AddAt(A: seq<seq<real>>, r: nat, q: nat, g: real): (B: seq<seq<real>>)
    requires r < |A| && q < |A[r]|
    ensures |B| == |A| && forall i :: 0 <= i < |A| ==> |B[i]| == |A[i]|
  {
    A[r := A[r][q := A[r][q] + g]]
  }

  /** Adding `g` to one cell adds `g` to every row-major prefix sum that
      covers that cell, and nothing to the others. */
  lemma {:induction false} GridSumAddAt(A: seq<seq<real>>, w: nat, i: nat, j: nat, r: nat, q: nat, g: real)
    requires Rect(A, |A|, w) && r < |A| && q < w
    requires i <= |A| && j <= w && (j > 0 ==> i < |A|)
    ensures Rect(AddAt(A, r, q, g), |A|, w)
    ensures GridSum(AddAt(A, r, q, g), w, i, j) == GridSum(A, w, i, j) + (if Before(r, q, i, j) then g else 0.0)
    decreases i, j
  {
    var B := AddAt(A, r, q, g);
    if j > 0 {
      GridSumAddAt(A, w, i, j - 1, r, q, g);
    } else if i > 0 {
      GridSumAddAt(A, w, i - 1, w, r, q, g);
    }
  }

  /** Every prefix sum of a grid of zeros is zero. */
  lemma {:induction false} GridSumZero(A: seq<seq<real>>, w: nat, i: nat, j: nat)
    requires Rect(A, |A|, w)
    requires forall r, q :: 0 <= r < |A| && 0 <= q < w ==> A[r][q] == 0.0
    requires i <= |A| && j <= w && (j > 0 ==> i < |A|)
    ensures GridSum(A, w, i, j) == 0.0
    decreases i, j
  {
    if j > 0 {
      GridSumZero(A, w, i, j - 1);
    } else if i > 0 {
      GridSumZero(A, w, i - 1, w);
    }
  }

  /** Multiplying by a positive factor preserves order. */
  lemma MulMono(a: int, b: int, s: int)
    requires s > 0 && a <= b
    ensures a * s <= b * s
  {
    assert b * s - a * s == (b - a) * s;
  }

  /** The cells of p in row-major order: the order in which numpy lays out and
      scans a grid. */
  function Flatten(p: seq<seq<real>>): seq<real> {
    if |p| == 0 then [] else p[0] + Flatten(p[1..])
  }

  /** Row-major position a * w + b of cell (a, b) of an h by w grid lies below h * w. */
  lemma FlatIndexBound(h: nat, w: nat, a: nat, b: nat)
    requires a < h && b < w
    ensures a * w + b < h * w
  {
    MulMono(a + 1, h, w);
  }

  /** Flattening an h by w grid gives h * w values, with cell (a, b) at
      position a * w + b. */
  lemma {:induction false} FlattenIndex(p: seq<seq<real>>, w: nat, a: nat, b: nat)
    requires Rect(p, |p|, w) && a < |p| && b < w
    ensures |Flatten(p)| == |p| * w && a * w + b < |p| * w
    ensures Flatten(p)[a * w + b] == p[a][b]
    decreases |p|
  {
    FlattenLength(p, w);
    FlatIndexBound(|p|, w, a, b);
    var k := a * w + b;
    if a > 0 {
      FlattenIndex(p[1..], w, a - 1, b);
      var k' := (a - 1) * w + b;
      assert k == w + k';
      assert Flatten(p) == p[0] + Flatten(p[1..]);
      assert Flatten(p)[k] == Flatten(p[1..])[k'];
    }
  }

  /** Flattening an h by w grid gives h * w values. */
  lemma {:induction false} FlattenLength(p: seq<seq<real>>, w: nat)
    requires Rect(p, |p|, w)
    ensures |Flatten(p)| == |p| * w
    decreases |p|
  {
    if |p| > 0 {
      FlattenLength(p[1..], w);
      assert |Flatten(p)| == w + (|p| - 1) * w;
    }
  }

  /** A four-dimensional tensor of reals, indexed [n][c][i][j]. */
  type Tensor4 = seq<seq<seq<seq<real>>>>

  /** `t` has shape (d0, d1, d2, d3). */
  predicate Shape4(t: Tensor4, d0: nat, d1: nat, d2: nat, d3: nat) {
    |t| == d0 && forall n :: 0 <= n < d0 ==> |t[n]| == d1 && forall c :: 0 <= c < d1 ==> Rect(t[n][c], d2, d3)
  }

  /** The current contents of a four-dimensional array, as a tensor. */
  function Snapshot(a: array4<real>): (t: Tensor4)
    reads a
    ensures Shape4(t, a.Length0, a.Length1, a.Length2, a.Length3)
    ensures forall n, c, i, j :: 0 <= n < a.Length0 && 0 <= c < a.Length1 && 0 <= i < a.Length2 && 0 <= j < a.Length3 ==>
              t[n][c][i][j] == a[n, c, i, j]
  {
    seq(a.Length0, n requires 0 <= n < a.Length0 reads a =>
      seq(a.Length1, c requires 0 <= c < a.Length1 reads a =>
        seq(a.Length2, i requires 0 <= i < a.Length2 reads a =>
          seq(a.Length3, j requires 0 <= j < a.Length3 reads a => a[n, c, i, j]))))
  }

  /** The current contents of a two-dimensional array, as a grid. */
  function Snapshot2(a: array2<real>): (t: seq<seq<real>>)
    reads a
    ensures Rect(t, a.Length0, a.Length1)
    ensures forall r, q :: 0 <= r < a.Length0 && 0 <= q < a.Length1 ==> t[r][q] == a[r, q]
  {
    seq(a.Length0, r requires 0 <= r < a.Length0 reads a =>
      seq(a.Length1, q requires 0 <= q < a.Length1 reads a => a[r, q]))
  }
}
