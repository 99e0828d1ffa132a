/** `max_pool_forward_naive` and `max_pool_backward_naive` of layers.py: a
    pool_height by pool_width window is swept over every channel of every
    example, with no padding. The forward pass writes each window's maximum;
    the backward pass hands each output cell's upstream gradient to the first
    maximum of its window in row-major order (`np.argmax`), accumulating with
    `+=` where windows overlap. */
module MaxPool {
  import opened Grids
  import opened Sweep
  import opened Padding

  /** The `pool_param` dictionary. */
  datatype PoolParam = PoolParam(poolHeight: int, poolWidth: int, stride: int)

  /** What the forward pass hands to the backward pass: (x, pool_param). */
  datatype PoolCache = PoolCache(x: array4<real>, param: PoolParam)

  /** The contents of a cache as values; x is (N, C, H, W). */
  datatype Pool = Pool(x: Tensor4, param: PoolParam, N: nat, C: nat, H: nat, W: nat)

  /** The values a cache refers to in the current state. */
  function Values(cache: PoolCache): Pool
    reads cache.x
  {
    var x := cache.x;
    Pool(Snapshot(x), cache.param, x.Length0, x.Length1, x.Length2, x.Length3)
  }

  /** The sweep of the pooling window over one channel. */
  function Geom(P: Pool): Geometry {
    Geometry(P.H, P.W, P.param.poolHeight, P.param.poolWidth, P.param.stride)
  }

  /** x has the shape the pool records, and the window sweeps the channel in step (`Tiles`). */
  predicate WellFormed(P: Pool) {
    Shape4(P.x, P.N, P.C, P.H, P.W) && Tiles(Geom(P))
  }

  // ----- Row-major flattening and the numpy reductions -----

  /** `np.argmax` of a non-empty vector: the position of its first maximum. */
  function Argmax(s: seq<real>): (k: nat)
    requires |s| > 0
    ensures k < |s|
    ensures forall t :: 0 <= t < |s| ==> s[t] <= s[k]
    ensures forall t :: 0 <= t < k ==> s[t] < s[k]
  {
    if |s| == 1 then 0
    else
      var k := Argmax(s[..|s| - 1]);
      if s[|s| - 1] > s[k] then |s| - 1 else k
  }

  /** `np.max` of a non-empty vector. */
  function MaxOf(s: seq<real>): (m: real)
    requires |s| > 0
    ensures forall t :: 0 <= t < |s| ==> s[t] <= m
  {
    if |s| == 1 then s[0]
    else
      var m := MaxOf(s[..|s| - 1]);
      if s[|s| - 1] > m then s[|s| - 1] else m
  }

  /** The maximum is attained, at the first-maximum position. */
  lemma {:induction false} MaxAtArgmax(s: seq<real>)
    requires |s| > 0
    ensures s[Argmax(s)] == MaxOf(s)
    decreases |s|
  {
    if |s| > 1 {
      MaxAtArgmax(s[..|s| - 1]);
    }
  }

  /** Row-major position to (row, column) in a window `width` wide: the
      decoding of line 698 with the window's width as divisor. */
  function ArgmaxCoords(idx: nat, width: int): (rc: (int, int))
    requires width > 0
    ensures rc.0 * width + rc.1 == idx && 0 <= rc.0 && 0 <= rc.1 < width
  {
    (idx / width, idx % width)
  }

  /** Decoding inverts row-major flattening: a position below h * width comes
      from a cell of the h by width grid, and cell (a, b) decodes back to itself. */
  lemma DecodeInRange(idx: nat, h: nat, width: int)
    requires width > 0 && idx < h * width
    ensures ArgmaxCoords(idx, width).0 < h
  {
    var rc := ArgmaxCoords(idx, width);
    if rc.0 >= h {
      MulMono(h, rc.0, width);
    }
  }

  /** Cell (a, b) of a grid `width` wide decodes back from its row-major position. */
  lemma DecodeFlatten(a: nat, b: nat, width: int)
    requires 0 <= b < width
    ensures ArgmaxCoords(a * width + b, width) == (a, b)
  {
    var rc := ArgmaxCoords(a * width + b, width);
    if rc.0 < a {
      MulMono(rc.0 + 1, a, width);
    } else if rc.0 > a {
      MulMono(a + 1, rc.0, width);
    }
  }

  /** Row-major order of cells agrees with the order of their positions. */
  lemma FlatOrder(a: nat, b: nat, a': nat, b': nat, w: nat)
    requires b < w && b' < w
    ensures Before(a, b, a', b') <==> a * w + b < a' * w + b'
  {
    if a < a' {
      MulMono(a + 1, a', w);
    } else if a > a' {
      MulMono(a' + 1, a, w);
    }
  }

  // ----- One window -----

  /** `current_X`: the ph by pw window of channel X with top-left corner (si, sj). */
  function Window(X: seq<seq<real>>, si: int, sj: int, ph: nat, pw: nat): (p: seq<seq<real>>)
    ensures Rect(p, ph, pw)
  {
    PaddedWindow(X, si, sj, 0, ph, pw)
  }

  /** Inside the channel, the window holds the channel's own cells. */
  lemma WindowInField(X: seq<seq<real>>, h: nat, w: nat, si: int, sj: int, ph: nat, pw: nat)
    requires Rect(X, h, w) && 0 <= si && si + ph <= h && 0 <= sj && sj + pw <= w
    ensures forall a, b :: 0 <= a < ph && 0 <= b < pw ==> Window(X, si, sj, ph, pw)[a][b] == X[si + a][sj + b]
  {
  }

  /** The (row, column) of the window that receives the upstream gradient:
      `np.argmax(current_X)` decoded by the window's width. It is the first
      maximum of the window in row-major order. */
  function Target(X: seq<seq<real>>, si: int, sj: int, ph: int, pw: int): (t: (int, int))
    requires ph > 0 && pw > 0
    ensures 0 <= t.0 < ph && 0 <= t.1 < pw
    ensures forall a, b :: 0 <= a < ph && 0 <= b < pw ==>
              Window(X, si, sj, ph, pw)[a][b] <= Window(X, si, sj, ph, pw)[t.0][t.1]
    ensures forall a, b :: 0 <= a < ph && 0 <= b < pw && Before(a, b, t.0, t.1) ==>
              Window(X, si, sj, ph, pw)[a][b] < Window(X, si, sj, ph, pw)[t.0][t.1]
  {
    var p := Window(X, si, sj, ph, pw);
    FlattenLength(p, pw);
    FlatIndexBound(ph, pw, 0, 0);
    var s := Flatten(p);
    var idx := Argmax(s);
    var t := ArgmaxCoords(idx, pw);
    DecodeInRange(idx, ph, pw);
    FlattenIndex(p, pw, t.0, t.1);
    assert forall a, b :: 0 <= a < ph && 0 <= b < pw ==> p[a][b] <= p[t.0][t.1] && (Before(a, b, t.0, t.1) ==> p[a][b] < p[t.0][t.1]) by {
      forall a, b | 0 <= a < ph && 0 <= b < pw
        ensures p[a][b] <= p[t.0][t.1] && (Before(a, b, t.0, t.1) ==> p[a][b] < p[t.0][t.1])
      {
        FlatIndexBound(ph, pw, a, b);
        FlattenIndex(p, pw, a, b);
        FlatOrder(a, b, t.0, t.1, pw);
      }
    }
    t
  }

  /** `np.max(current_X)`: the largest value of the window, found at its
      first maximum. */
  function WindowMax(X: seq<seq<real>>, si: int, sj: int, ph: int, pw: int): (m: real)
    requires ph > 0 && pw > 0
    ensures forall a, b :: 0 <= a < ph && 0 <= b < pw ==> Window(X, si, sj, ph, pw)[a][b] <= m
    ensures m == Window(X, si, sj, ph, pw)[Target(X, si, sj, ph, pw).0][Target(X, si, sj, ph, pw).1]
  {
    var p := Window(X, si, sj, ph, pw);
    FlattenLength(p, pw);
    FlatIndexBound(ph, pw, 0, 0);
    var s := Flatten(p);
    MaxAtArgmax(s);
    var t := Target(X, si, sj, ph, pw);
    FlattenIndex(p, pw, t.0, t.1);
    MaxOf(s)
  }

  // ----- Forward pass -----

  /** The value the forward pass writes to out[n, c, i, j]: the maximum of
      the window of output cell (i, j), whose corner is (i * stride, j * stride). */
  function PoolAt(P: Pool, n: nat, c: nat, i: int, j: int): real
    requires WellFormed(P) && n < P.N && c < P.C
  {
    WindowMax(P.x[n][c], i * P.param.stride, j * P.param.stride, P.param.poolHeight, P.param.poolWidth)
  }

  /** Each output cell is at least every input cell of its window and equal
      to one of them, its first maximum. */
  lemma PoolAtIsWindowMax(P: Pool, n: nat, c: nat, i: nat, j: nat)
    requires WellFormed(P) && n < P.N && c < P.C && i < OutH(Geom(P)) && j < OutW(Geom(P))
    ensures 0 <= i * P.param.stride && i * P.param.stride + P.param.poolHeight <= P.H
    ensures 0 <= j * P.param.stride && j * P.param.stride + P.param.poolWidth <= P.W
    ensures forall r, q :: i * P.param.stride <= r < i * P.param.stride + P.param.poolHeight &&
                           j * P.param.stride <= q < j * P.param.stride + P.param.poolWidth ==>
              P.x[n][c][r][q] <= PoolAt(P, n, c, i, j)
    ensures var t := Target(P.x[n][c], i * P.param.stride, j * P.param.stride, P.param.poolHeight, P.param.poolWidth);
            P.x[n][c][i * P.param.stride + t.0][j * P.param.stride + t.1] == PoolAt(P, n, c, i, j)
  {
    CellWindowInField(Geom(P), i, j);
    var si, sj := i * P.param.stride, j * P.param.stride;
    WindowInField(P.x[n][c], P.H, P.W, si, sj, P.param.poolHeight, P.param.poolWidth);
    forall r, q | si <= r < si + P.param.poolHeight && sj <= q < sj + P.param.poolWidth
      ensures P.x[n][c][r][q] <= PoolAt(P, n, c, i, j)
    {
      assert P.x[n][c][r][q] == Window(P.x[n][c], si, sj, P.param.poolHeight, P.param.poolWidth)[r - si][q - sj];
    }
  }

  /** The while loop of one (example, channel) pair: writes every cell of
      out[n, c] with its window's maximum and nothing else. */
  method MaxPoolForwardPlane(P: Pool, n: nat, c: nat, out: array4<real>)
    requires WellFormed(P) && n < P.N && c < P.C
    requires out.Length0 == P.N && out.Length1 == P.C && out.Length2 == OutH(Geom(P)) && out.Length3 == OutW(Geom(P))
    modifies out
    ensures forall n', c', i, j | 0 <= n' < out.Length0 && 0 <= c' < out.Length1 && 0 <= i < out.Length2 && 0 <= j < out.Length3 ::
              out[n', c', i, j] == if n' == n && c' == c then PoolAt(P, n, c, i, j) else old(out[n', c', i, j])
  {
    var g := Geom(P);
    var wPrime := OutW(g);
    var example := P.x[n];
    var cur := Origin;
    while cur.startI + g.winH <= g.fieldH
      invariant OnGrid(g, cur)
      invariant forall n', c', i, j | 0 <= n' < out.Length0 && 0 <= c' < out.Length1 && 0 <= i < out.Length2 && 0 <= j < out.Length3 ::
                  out[n', c', i, j] == if n' == n && c' == c && Before(i, j, cur.outI, cur.outJ) then PoolAt(P, n, c, i, j) else old(out[n', c', i, j])
      decreases OutH(g) - cur.outI, OutW(g) - cur.outJ
    {
      GuardExact(g, cur);
      var currentResult := WindowMax(example[c], cur.startI, cur.startJ, g.winH, g.winW);
      out[n, c, cur.outI, cur.outJ] := currentResult;
      AdvanceLockstep(g, cur);
      cur := Advance(g, wPrime, cur);
    }
    GuardExact(g, cur);
  }

  /** `max_pool_forward_naive`: out has shape (N, C, H', W') with
      H' = 1 + (H - pool_height) / stride and W' = 1 + (W - pool_width) / stride,
      and every out[n, c, i, j] is the maximum of the window of channel c of
      example n at (i * stride, j * stride). */
  method MaxPoolForwardNaive(x: array4<real>, pp: PoolParam) returns (out: array4<real>, cache: PoolCache)
    requires WellFormed(Values(PoolCache(x, pp)))
    ensures fresh(out) && cache == PoolCache(x, pp)
    ensures out.Length0 == x.Length0 && out.Length1 == x.Length1
    ensures out.Length2 == 1 + (x.Length2 - pp.poolHeight) / pp.stride
    ensures out.Length3 == 1 + (x.Length3 - pp.poolWidth) / pp.stride
    ensures forall n, c, i, j | 0 <= n < out.Length0 && 0 <= c < out.Length1 && 0 <= i < out.Length2 && 0 <= j < out.Length3 ::
              out[n, c, i, j] == PoolAt(Values(cache), n, c, i, j)
  {
    cache := PoolCache(x, pp);
    var P := Values(cache);
    var g := Geom(P);
    out := new real[P.N, P.C, OutH(g), OutW(g)]((_, _, _, _) => 0.0);
    for n := 0 to P.N
      invariant forall n', c', i, j | 0 <= n' < out.Length0 && 0 <= c' < out.Length1 && 0 <= i < out.Length2 && 0 <= j < out.Length3 ::
                  n' < n ==> out[n', c', i, j] == PoolAt(P, n', c', i, j)
    {
      for c := 0 to P.C
        invariant forall n', c', i, j | 0 <= n' < out.Length0 && 0 <= c' < out.Length1 && 0 <= i < out.Length2 && 0 <= j < out.Length3 ::
                    n' < n || (n' == n && c' < c) ==> out[n', c', i, j] == PoolAt(P, n', c', i, j)
      {
        MaxPoolForwardPlane(P, n, c, out);
      }
    }
    assert Values(cache) == P;
  }

  // ----- Backward pass -----

  /** The pool is well formed and dout is (N, C, H', W') for its sweep. */
  predicate GradientShape(D: Tensor4, P: Pool) {
    WellFormed(P) && Shape4(D, P.N, P.C, OutH(Geom(P)), OutW(Geom(P)))
  }

  /** `update_x`: an h by w grid of zeros holding g at (r, q). */
  function OneHot(h: nat, w: nat, r: int, q: int, g: real): (u: seq<seq<real>>)
    ensures Rect(u, h, w)
    ensures forall a, b :: 0 <= a < h && 0 <= b < w ==> u[a][b] == if a == r && b == q then g else 0.0
  {
    seq(h, a requires 0 <= a => seq(w, b requires 0 <= b => if a == r && b == q then g else 0.0))
  }

  /** One pass of the backward while loop on the window of channel c of
      example n with corner (si, sj): the whole upstream gradient g goes to the
      window's first maximum, and no other cell of dx changes. */
  method RouteWindow(dx: array4<real>, X: seq<seq<real>>, p: PoolParam, n: nat, c: nat, si: int, sj: int, g: real)
    requires p.poolHeight > 0 && p.poolWidth > 0 && n < dx.Length0 && c < dx.Length1
    requires 0 <= si && si + p.poolHeight <= dx.Length2 && 0 <= sj && sj + p.poolWidth <= dx.Length3
    modifies dx
    ensures var t := Target(X, si, sj, p.poolHeight, p.poolWidth);
            forall n', c', r, q | 0 <= n' < dx.Length0 && 0 <= c' < dx.Length1 && 0 <= r < dx.Length2 && 0 <= q < dx.Length3 ::
              dx[n', c', r, q] == old(dx[n', c', r, q]) + if n' == n && c' == c && r == si + t.0 && q == sj + t.1 then g else 0.0
  {
    var ph, pw := p.poolHeight, p.poolWidth;
    var currentX := Window(X, si, sj, ph, pw);
    FlattenLength(currentX, pw);
    FlatIndexBound(ph, pw, 0, 0);
    var currentMaxIndex := Argmax(Flatten(currentX));
    DecodeInRange(currentMaxIndex, ph, pw);
    var (maxI, maxJ) := ArgmaxCoords(currentMaxIndex, pw);
    var updateX := OneHot(ph, pw, maxI, maxJ, g);
    assert Target(X, si, sj, ph, pw) == (maxI, maxJ);
    forall r, q | si <= r < si + ph && sj <= q < sj + pw {
      dx[n, c, r, q] := dx[n, c, r, q] + updateX[r - si][q - sj];
    }
  }

  /** What input cell (r, q) receives from an output cell whose upstream
      gradient is g and whose window has corner (si, sj): all of g when
      (r, q) is the window's first maximum, and nothing otherwise. */
  function Share(X: seq<seq<real>>, p: PoolParam, r: int, q: int, si: int, sj: int, g: real): real
    requires p.poolHeight > 0 && p.poolWidth > 0
  {
    var t := Target(X, si, sj, p.poolHeight, p.poolWidth);
    if r == si + t.0 && q == sj + t.1 then g else 0.0
  }

  /** What input cell (r, q) of channel X has received from the output cells
      of the upstream-gradient plane G before (i, j) in row-major order: the
      sum of G[i'][j'] over the cells whose window, with corner
      (i' * stride, j' * stride), has its first maximum at (r, q). */
  function Routed(X: seq<seq<real>>, p: PoolParam, G: seq<seq<real>>, r: int, q: int, i: nat, j: nat): real
    requires p.poolHeight > 0 && p.poolWidth > 0 && Prefix(G, i, j)
    decreases i, j
  {
    if j > 0 then Routed(X, p, G, r, q, i, j - 1) + Share(X, p, r, q, i * p.stride, (j - 1) * p.stride, G[i][j - 1])
    else if i == 0 then 0.0
    else Routed(X, p, G, r, q, i - 1, |G[i - 1]|)
  }

  /** Extending the row-major prefix by output cell (i, j) adds that cell's
      upstream gradient at the first maximum of its window. */
  lemma {:induction false} RoutedStep(X: seq<seq<real>>, p: PoolParam, G: seq<seq<real>>, r: int, q: int, i: nat, j: nat)
    requires p.poolHeight > 0 && p.poolWidth > 0 && i < |G| && j < |G[i]|
    ensures Prefix(G, NextCell(|G[i]|, i, j).0, NextCell(|G[i]|, i, j).1)
    ensures Routed(X, p, G, r, q, NextCell(|G[i]|, i, j).0, NextCell(|G[i]|, i, j).1)
            == Routed(X, p, G, r, q, i, j) + Share(X, p, r, q, i * p.stride, j * p.stride, G[i][j])
  {
    if j + 1 == |G[i]| {
      assert Routed(X, p, G, r, q, i + 1, 0) == Routed(X, p, G, r, q, i, |G[i]|);
    }
  }

  /** RoutedStep for every input cell at once, with the window's corner given
      as (si, sj). */
  lemma RoutedWindowStep(X: seq<seq<real>>, p: PoolParam, G: seq<seq<real>>, i: nat, j: nat, si: int, sj: int)
    requires p.poolHeight > 0 && p.poolWidth > 0 && i < |G| && j < |G[i]| && si == i * p.stride && sj == j * p.stride
    ensures Prefix(G, NextCell(|G[i]|, i, j).0, NextCell(|G[i]|, i, j).1)
    ensures forall r, q :: Routed(X, p, G, r, q, NextCell(|G[i]|, i, j).0, NextCell(|G[i]|, i, j).1)
                           == Routed(X, p, G, r, q, i, j) + Share(X, p, r, q, si, sj, G[i][j])
  {
    forall r, q
      ensures Routed(X, p, G, r, q, NextCell(|G[i]|, i, j).0, NextCell(|G[i]|, i, j).1)
              == Routed(X, p, G, r, q, i, j) + Share(X, p, r, q, si, sj, G[i][j])
    {
      RoutedStep(X, p, G, r, q, i, j);
    }
  }

  /** dx[n, c, r, q] at the end of the backward pass: what input cell (r, q)
      receives from every output cell of plane (n, c) of dout. */
  function PlaneRouted(P: Pool, D: Tensor4, n: nat, c: nat, r: int, q: int): real
    requires GradientShape(D, P) && n < P.N && c < P.C
  {
    Routed(P.x[n][c], P.param, D[n][c], r, q, |D[n][c]|, 0)
  }

  /** dx holds its starting contents dx0 plus, in channel c of example n, what
      the windows of the output cells of plane G before (i, j) route to each cell. */
  ghost predicate RoutedBefore(P: Pool, G: seq<seq<real>>, n: nat, c: nat, i: nat, j: nat, dx: array4<real>, dx0: Tensor4)
    reads dx
  {
    && n < |P.x| && c < |P.x[n]| && P.param.poolHeight > 0 && P.param.poolWidth > 0 && Prefix(G, i, j)
    && Shape4(dx0, dx.Length0, dx.Length1, dx.Length2, dx.Length3)
    && forall n', c', r, q | 0 <= n' < dx.Length0 && 0 <= c' < dx.Length1 && 0 <= r < dx.Length2 && 0 <= q < dx.Length3 ::
         dx[n', c', r, q] == dx0[n'][c'][r][q] + if n' == n && c' == c then Routed(P.x[n][c], P.param, G, r, q, i, j) else 0.0
  }

  /** The dx update of the window of output cell (i, j), whose corner is
      (si, sj): the routed gradient moves on to the next cell. */
  method AdvanceRoute(P: Pool, G: seq<seq<real>>, n: nat, c: nat, i: nat, j: nat, si: int, sj: int, dx: array4<real>, ghost dx0: Tensor4)
    requires RoutedBefore(P, G, n, c, i, j, dx, dx0) && n < dx.Length0 && c < dx.Length1
    requires i < |G| && j < |G[i]| && si == i * P.param.stride && sj == j * P.param.stride
    requires 0 <= si && si + P.param.poolHeight <= dx.Length2 && 0 <= sj && sj + P.param.poolWidth <= dx.Length3
    modifies dx
    ensures RoutedBefore(P, G, n, c, NextCell(|G[i]|, i, j).0, NextCell(|G[i]|, i, j).1, dx, dx0)
  {
    RoutedWindowStep(P.x[n][c], P.param, G, i, j, si, sj);
    RouteWindow(dx, P.x[n][c], P.param, n, c, si, sj, G[i][j]);
  }

  /** The while loop of one (example, channel) pair: every window adds its
      upstream gradient to the first maximum of its window in channel c of
      example n. */
  method MaxPoolBackwardPlane(P: Pool, D: Tensor4, n: nat, c: nat, dx: array4<real>)
    requires GradientShape(D, P) && n < P.N && c < P.C
    requires dx.Length0 == P.N && dx.Length1 == P.C && dx.Length2 == P.H && dx.Length3 == P.W
    modifies dx
    ensures forall n', c', r, q | 0 <= n' < dx.Length0 && 0 <= c' < dx.Length1 && 0 <= r < dx.Length2 && 0 <= q < dx.Length3 ::
              dx[n', c', r, q] == old(dx[n', c', r, q]) + if n' == n && c' == c then PlaneRouted(P, D, n, c, r, q) else 0.0
  {
    var g := Geom(P);
    var wPrime := OutW(g);
    var G := D[n][c];
    ghost var dx0 := Snapshot(dx);
    var cur := Origin;
    while cur.startI + g.winH <= g.fieldH
      invariant OnGrid(g, cur)
      invariant RoutedBefore(P, G, n, c, cur.outI, cur.outJ, dx, dx0)
      decreases OutH(g) - cur.outI, OutW(g) - cur.outJ
    {
      GuardExact(g, cur);
      CellWindowInField(g, cur.outI, cur.outJ);
      var i, j := cur.outI, cur.outJ;
      AdvanceLockstep(g, cur);
      var next := Advance(g, wPrime, cur);
      assert next.outI == NextCell(|G[i]|, i, j).0 && next.outJ == NextCell(|G[i]|, i, j).1;
      AdvanceRoute(P, G, n, c, i, j, cur.startI, cur.startJ, dx, dx0);
      cur := next;
    }
    GuardExact(g, cur);
    assert RoutedBefore(P, G, n, c, |G|, 0, dx, dx0);
  }

  /** The loops over examples and channels, on the values of the cache and
      of dout: dx starts at zero and ends holding every plane's routed gradient. */
  method BackwardRoutes(P: Pool, D: Tensor4) returns (dx: array4<real>)
    requires GradientShape(D, P)
    ensures fresh(dx) && dx.Length0 == P.N && dx.Length1 == P.C && dx.Length2 == P.H && dx.Length3 == P.W
    ensures forall n, c, r, q | 0 <= n < dx.Length0 && 0 <= c < dx.Length1 && 0 <= r < dx.Length2 && 0 <= q < dx.Length3 ::
              dx[n, c, r, q] == PlaneRouted(P, D, n, c, r, q)
  {
    dx := new real[P.N, P.C, P.H, P.W]((_, _, _, _) => 0.0);
    for n := 0 to P.N
      invariant forall n', c', r, q | 0 <= n' < dx.Length0 && 0 <= c' < dx.Length1 && 0 <= r < dx.Length2 && 0 <= q < dx.Length3 ::
                  dx[n', c', r, q] == if n' < n then PlaneRouted(P, D, n', c', r, q) else 0.0
    {
      for c := 0 to P.C
        invariant forall n', c', r, q | 0 <= n' < dx.Length0 && 0 <= c' < dx.Length1 && 0 <= r < dx.Length2 && 0 <= q < dx.Length3 ::
                    dx[n', c', r, q] == if n' < n || (n' == n && c' < c) then PlaneRouted(P, D, n', c', r, q) else 0.0
      {
        MaxPoolBackwardPlane(P, D, n, c, dx);
      }
    }
  }

  /** `max_pool_backward_naive`: dx has the shape of x, and dx[n, c, r, q] is
      the sum of the upstream gradients of the output cells of plane (n, c)
      whose window has its first maximum at (r, q). */
  method MaxPoolBackwardNaive(dout: array4<real>, cache: PoolCache) returns (dx: array4<real>)
    requires GradientShape(Snapshot(dout), Values(cache))
    ensures fresh(dx)
    ensures dx.Length0 == cache.x.Length0 && dx.Length1 == cache.x.Length1 && dx.Length2 == cache.x.Length2 && dx.Length3 == cache.x.Length3
    ensures forall n, c, r, q | 0 <= n < dx.Length0 && 0 <= c < dx.Length1 && 0 <= r < dx.Length2 && 0 <= q < dx.Length3 ::
              dx[n, c, r, q] == PlaneRouted(old(Values(cache)), old(Snapshot(dout)), n, c, r, q)
  {
    var P, D := Values(cache), Snapshot(dout);
    dx := BackwardRoutes(P, D);
  }

  // ----- Conservation of the routed gradient -----

  /** The grid of what every cell of an h by w channel has received from the
      output cells of G before (i, j). */
  function RoutedGrid(X: seq<seq<real>>, p: PoolParam, G: seq<seq<real>>, h: nat, w: nat, i: nat, j: nat): (R: seq<seq<real>>)
    requires p.poolHeight > 0 && p.poolWidth > 0 && Prefix(G, i, j)
    ensures Rect(R, h, w)
    ensures forall r, q :: 0 <= r < h && 0 <= q < w ==> R[r][q] == Routed(X, p, G, r, q, i, j)
  {
    seq(h, r requires 0 <= r < h => seq(w, q requires 0 <= q < w => Routed(X, p, G, r, q, i, j)))
  }

  /** Output cell (i, j - 1), whose window has corner (si, sj), adds its
      upstream gradient to one cell of the grid: its window's first maximum. */
  lemma RoutedGridStep(X: seq<seq<real>>, p: PoolParam, G: seq<seq<real>>, h: nat, w: nat, i: nat, j: nat, si: int, sj: int)
    requires p.poolHeight > 0 && p.poolWidth > 0 && i < |G| && 0 < j <= |G[i]|
    requires si == i * p.stride && sj == (j - 1) * p.stride
    requires 0 <= si && si + p.poolHeight <= h && 0 <= sj && sj + p.poolWidth <= w
    ensures var t := Target(X, si, sj, p.poolHeight, p.poolWidth);
            RoutedGrid(X, p, G, h, w, i, j) == AddAt(RoutedGrid(X, p, G, h, w, i, j - 1), si + t.0, sj + t.1, G[i][j - 1])
  {
    var t := Target(X, si, sj, p.poolHeight, p.poolWidth);
    var A := RoutedGrid(X, p, G, h, w, i, j - 1);
    var B := RoutedGrid(X, p, G, h, w, i, j);
    var C := AddAt(A, si + t.0, sj + t.1, G[i][j - 1]);
    forall r | 0 <= r < h
      ensures B[r] == C[r]
    {
      forall q | 0 <= q < w
        ensures B[r][q] == C[r][q]
      {
        assert B[r][q] == A[r][q] + Share(X, p, r, q, si, sj, G[i][j - 1]);
      }
    }
  }

  /** Moving from the end of row i - 1 to the start of row i visits no
      output cell, so it routes nothing. */
  lemma RoutedGridRowEnd(X: seq<seq<real>>, p: PoolParam, G: seq<seq<real>>, h: nat, w: nat, i: nat)
    requires p.poolHeight > 0 && p.poolWidth > 0 && 0 < i <= |G|
    ensures Prefix(G, i - 1, |G[i - 1]|) && Prefix(G, i, 0)
    ensures RoutedGrid(X, p, G, h, w, i, 0) == RoutedGrid(X, p, G, h, w, i - 1, |G[i - 1]|)
  {
    var A, B := RoutedGrid(X, p, G, h, w, i - 1, |G[i - 1]|), RoutedGrid(X, p, G, h, w, i, 0);
    forall r | 0 <= r < h
      ensures B[r] == A[r]
    {
      forall q | 0 <= q < w
        ensures B[r][q] == A[r][q]
      {
        assert Routed(X, p, G, r, q, i, 0) == Routed(X, p, G, r, q, i - 1, |G[i - 1]|);
      }
    }
  }

  /** Every window hands its whole upstream gradient to one cell inside the
      channel, so the channel has received, in total, exactly the sum of the
      upstream gradients of the output cells visited so far. */
  lemma {:induction false} RoutedMass(X: seq<seq<real>>, p: PoolParam, G: seq<seq<real>>, g: Geometry, i: nat, j: nat)
    requires Tiles(g) && g.winH == p.poolHeight && g.winW == p.poolWidth && g.stride == p.stride
    requires Rect(G, OutH(g), OutW(g)) && i <= |G| && j <= OutW(g) && (j > 0 ==> i < |G|)
    ensures Prefix(G, i, j)
    ensures GridSum(RoutedGrid(X, p, G, g.fieldH, g.fieldW, i, j), g.fieldW, g.fieldH, 0) == GridSum(G, OutW(g), i, j)
    decreases i, j
  {
    var h, w := g.fieldH, g.fieldW;
    if j > 0 {
      RoutedMass(X, p, G, g, i, j - 1);
      CellWindowInField(g, i, j - 1);
      var si, sj := i * p.stride, (j - 1) * p.stride;
      var t := Target(X, si, sj, p.poolHeight, p.poolWidth);
      RoutedGridStep(X, p, G, h, w, i, j, si, sj);
      GridSumAddAt(RoutedGrid(X, p, G, h, w, i, j - 1), w, h, 0, si + t.0, sj + t.1, G[i][j - 1]);
    } else if i > 0 {
      RoutedMass(X, p, G, g, i - 1, OutW(g));
      RoutedGridRowEnd(X, p, G, h, w, i);
    } else {
      GridSumZero(RoutedGrid(X, p, G, h, w, 0, 0), w, h, 0);
    }
  }

  /** The backward pass conserves gradient mass: the entries of plane (n, c)
      of dx, which are PlaneRouted(P, D, n, c, r, q), add up to the entries of
      plane (n, c) of dout. */
  lemma MaxPoolBackwardConservesMass(P: Pool, D: Tensor4, n: nat, c: nat)
    requires GradientShape(D, P) && n < P.N && c < P.C
    ensures forall r, q :: 0 <= r < P.H && 0 <= q < P.W ==>
              RoutedGrid(P.x[n][c], P.param, D[n][c], P.H, P.W, |D[n][c]|, 0)[r][q] == PlaneRouted(P, D, n, c, r, q)
    ensures GridSum(RoutedGrid(P.x[n][c], P.param, D[n][c], P.H, P.W, |D[n][c]|, 0), P.W, P.H, 0)
            == GridSum(D[n][c], OutW(Geom(P)), OutH(Geom(P)), 0)
  {
    RoutedMass(P.x[n][c], P.param, D[n][c], Geom(P), OutH(Geom(P)), 0);
  }

  // ----- Line 698 as written -----

  /** The routing target as line 698 computes it: `np.argmax(current_X)`
      decoded with `current_X.shape[0]`, the window's HEIGHT, as divisor.
      On square pools it is the first maximum. */
  function TargetAsWritten(X: seq<seq<real>>, si: int, sj: int, ph: int, pw: int): (t: (int, int))
    requires ph > 0 && pw > 0
    ensures ph == pw ==> t == Target(X, si, sj, ph, pw)
  {
    var p := Window(X, si, sj, ph, pw);
    FlattenLength(p, pw);
    FlatIndexBound(ph, pw, 0, 0);
    ArgmaxCoords(Argmax(Flatten(p)), ph)
  }

  /** A 2 by 3 pool whose maximum is at (0, 2): the as-written decoding
      routes the gradient to (1, 0), a cell that is not a maximum. */
  lemma AsWrittenMisroutesWidePool()
    ensures var X := [[0.0, 0.0, 1.0], [0.0, 0.0, 0.0]];
            Target(X, 0, 0, 2, 3) == (0, 2) && TargetAsWritten(X, 0, 0, 2, 3) == (1, 0) && X[1][0] < X[0][2]
  {
    var X := [[0.0, 0.0, 1.0], [0.0, 0.0, 0.0]];
    var p := Window(X, 0, 0, 2, 3);
    WindowInField(X, 2, 3, 0, 0, 2, 3);
    assert p[0] == X[0] && p[1] == X[1];
    var s := Flatten(p);
    assert s == [0.0, 0.0, 1.0, 0.0, 0.0, 0.0];
    ArgmaxOfStrictMax(s, 2);
  }

  /** A strict maximum of s is its argmax. */
  lemma ArgmaxOfStrictMax(s: seq<real>, k: nat)
    requires k < |s| && forall t :: 0 <= t < |s| && t != k ==> s[t] < s[k]
    ensures Argmax(s) == k
  {
  }

  /** A 2 by 3 pool whose maximum is at (1, 2): the as-written decoding
      names row 2 of a window that has rows 0 and 1 only, so `update_x`
      cannot be indexed there. */
  lemma AsWrittenLeavesWidePool()
    ensures var X := [[0.0, 0.0, 0.0], [0.0, 0.0, 1.0]];
            Target(X, 0, 0, 2, 3) == (1, 2) && TargetAsWritten(X, 0, 0, 2, 3) == (2, 1)
  {
    var X := [[0.0, 0.0, 0.0], [0.0, 0.0, 1.0]];
    var p := Window(X, 0, 0, 2, 3);
    WindowInField(X, 2, 3, 0, 0, 2, 3);
    assert p[0] == X[0] && p[1] == X[1];
    assert Flatten(p) == [0.0, 0.0, 0.0, 0.0, 0.0, 1.0];
  }
}
