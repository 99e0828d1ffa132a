/** `conv_forward_naive` of layers.py: each example is zero-padded and every
    filter is slid over it with the sweep of module Sweep; each window's
    product-sum with the filter, plus the filter's bias, is written to one
    output cell. */
module ConvForward {
  import opened Grids
  import opened Sweep
  import opened Padding

  /** The `conv_param` dictionary. */
  datatype ConvParam = ConvParam(stride: int, pad: nat)

  /** What the forward pass hands to the backward pass: (x, w, b, conv_param). */
  datatype ConvCache = ConvCache(x: array4<real>, w: array4<real>, b: array<real>, param: ConvParam)

  /** The contents of a cache as values, with the sizes the kernels read off
      the arrays' shapes: x is (N, C, H, W), w is (F, WC, HH, WW), b is (F,). */
  datatype Layer = Layer(x: Tensor4, w: Tensor4, b: seq<real>, param: ConvParam,
                         N: nat, C: nat, H: nat, W: nat, F: nat, WC: nat, HH: nat, WW: nat)

  /** The values a cache refers to in the current state. */
  function Values(cache: ConvCache): Layer
    reads cache.x, cache.w, cache.b
  {
    var x, w := cache.x, cache.w;
    Layer(Snapshot(x), Snapshot(w), cache.b[..], cache.param,
          x.Length0, x.Length1, x.Length2, x.Length3, w.Length0, w.Length1, w.Length2, w.Length3)
  }

  /** The sweep of a filter over a padded example. */
  function Geom(L: Layer): Geometry {
    Geometry(L.H + 2 * L.param.pad, L.W + 2 * L.param.pad, L.HH, L.WW, L.param.stride)
  }

  /** x, w and b have the layer's shapes, x and w agree on the channel
      count, and the filter sweeps the padded example in step (`Tiles`). */
  predicate WellFormed(L: Layer) {
    && Shape4(L.x, L.N, L.C, L.H, L.W) && Shape4(L.w, L.F, L.WC, L.HH, L.WW) && |L.b| == L.F && L.WC == L.C
    && Tiles(Geom(L))
  }

  /** `np.sum(current_X * current_w)` restricted to the first k channels: the
      product-sum of the padded window at (si, sj) of example n with filter f. */
  function WindowProduct(L: Layer, n: nat, f: nat, si: int, sj: int, k: nat): real
    requires WellFormed(L) && n < L.N && f < L.F && k <= L.C
  {
    if k == 0 then 0.0
    else WindowProduct(L, n, f, si, sj, k - 1)
         + GridDot(PaddedWindow(L.x[n][k - 1], si, sj, L.param.pad, L.HH, L.WW), L.w[f][k - 1], L.WW, L.HH, 0)
  }

  /** The value the forward pass writes to out[n, f, i, j]: the window of
      output cell (i, j) starts at (i * stride, j * stride). */
  function ConvAt(L: Layer, n: nat, f: nat, i: int, j: int): real
    requires WellFormed(L) && n < L.N && f < L.F
  {
    WindowProduct(L, n, f, i * L.param.stride, j * L.param.stride, L.C) + L.b[f]
  }

  /** The while loop of one (example, filter) pair: writes every cell of
      out[n, f] with its window's value and nothing else. */
  method ConvForwardPlane(L: Layer, n: nat, f: nat, out: array4<real>)
    requires WellFormed(L) && n < L.N && f < L.F
    requires out.Length0 == L.N && out.Length1 == L.F && out.Length2 == OutH(Geom(L)) && out.Length3 == OutW(Geom(L))
    modifies out
    ensures forall n', f', i, j | 0 <= n' < out.Length0 && 0 <= f' < out.Length1 && 0 <= i < out.Length2 && 0 <= j < out.Length3 ::
              out[n', f', i, j] == if n' == n && f' == f then ConvAt(L, n, f, i, j) else old(out[n', f', i, j])
  {
    var g := Geom(L);
    var wPrime := OutW(g);
    var cur := Origin;
    while cur.startI + g.winH <= g.fieldH
      invariant OnGrid(g, cur)
      invariant forall n', f', i, j | 0 <= n' < out.Length0 && 0 <= f' < out.Length1 && 0 <= i < out.Length2 && 0 <= j < out.Length3 ::
                  out[n', f', i, j] == if n' == n && f' == f && Before(i, j, cur.outI, cur.outJ) then ConvAt(L, n, f, i, j) else old(out[n', f', i, j])
      decreases OutH(g) - cur.outI, OutW(g) - cur.outJ
    {
      GuardExact(g, cur);
      out[n, f, cur.outI, cur.outJ] := WindowProduct(L, n, f, cur.startI, cur.startJ, L.C) + L.b[f];
      AdvanceLockstep(g, cur);
      cur := Advance(g, wPrime, cur);
    }
    GuardExact(g, cur);
  }

  /** `conv_forward_naive`: out has shape (N, F, H', W') with
      H' = 1 + (H + 2 * pad - HH) / stride and W' = 1 + (W + 2 * pad - WW) / stride,
      and every out[n, f, i, j] is the product-sum of filter f with the padded
      window of example n at (i * stride, j * stride), plus b[f]. */
  method ConvForwardNaive(x: array4<real>, w: array4<real>, b: array<real>, cp: ConvParam) returns (out: array4<real>, cache: ConvCache)
    requires WellFormed(Values(ConvCache(x, w, b, cp)))
    ensures fresh(out) && cache == ConvCache(x, w, b, cp)
    ensures out.Length0 == x.Length0 && out.Length1 == w.Length0
    ensures out.Length2 == 1 + (x.Length2 + 2 * cp.pad - w.Length2) / cp.stride
    ensures out.Length3 == 1 + (x.Length3 + 2 * cp.pad - w.Length3) / cp.stride
    ensures forall n, f, i, j | 0 <= n < out.Length0 && 0 <= f < out.Length1 && 0 <= i < out.Length2 && 0 <= j < out.Length3 ::
              out[n, f, i, j] == ConvAt(Values(cache), n, f, i, j)
  {
    cache := ConvCache(x, w, b, cp);
    var L := Values(cache);
    var g := Geom(L);
    out := new real[L.N, L.F, OutH(g), OutW(g)]((_, _, _, _) => 0.0);
    for n := 0 to L.N
      invariant forall n', f', i, j | 0 <= n' < out.Length0 && 0 <= f' < out.Length1 && 0 <= i < out.Length2 && 0 <= j < out.Length3 ::
                  n' < n ==> out[n', f', i, j] == ConvAt(L, n', f', i, j)
    {
      for f := 0 to L.F
        invariant forall n', f', i, j | 0 <= n' < out.Length0 && 0 <= f' < out.Length1 && 0 <= i < out.Length2 && 0 <= j < out.Length3 ::
                    n' < n || (n' == n && f' < f) ==> out[n', f', i, j] == ConvAt(L, n', f', i, j)
      {
        ConvForwardPlane(L, n, f, out);
      }
    }
    assert Values(cache) == L;
  }

  /** A single 1x1x1 filter holding 1, with bias 0, stride 1 and no padding,
      is a well-formed layer that reproduces its input: out[n, 0, i, j] == x[n, 0, i, j]. */
  lemma IdentityFilterForward(L: Layer, n: nat, i: nat, j: nat)
    requires L.param == ConvParam(1, 0) && L.C == 1 && L.F == 1 && L.WC == 1 && L.HH == 1 && L.WW == 1
    requires Shape4(L.x, L.N, 1, L.H, L.W) && L.w == [[[[1.0]]]] && L.b == [0.0]
    requires n < L.N && i < L.H && j < L.W
    ensures WellFormed(L)
    ensures ConvAt(L, n, 0, i, j) == L.x[n][0][i][j]
  {
    var win := PaddedWindow(L.x[n][0], i, j, 0, 1, 1);
    assert GridDot(win, [[1.0]], 1, 1, 0) == win[0][0] * 1.0;
    assert WindowProduct(L, n, 0, i, j, 1) == GridDot(win, [[1.0]], 1, 1, 0);
  }
}
