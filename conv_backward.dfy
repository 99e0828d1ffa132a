/** `conv_backward_naive` of layers.py: the forward sweep is replayed, and at
    every window the upstream gradient of its output cell is accumulated into
    db, into dw (times the padded input window) and, through the non-pad
    coordinates of the window, into dx (times the filter). */
module ConvBackward {
  import opened Grids
  import opened Sweep
  import opened Padding
  import opened ConvForward

  /** The layer is well formed and dout is (N, F, H', W') for its sweep. */
  predicate GradientShape(D: Tensor4, L: Layer) {
    WellFormed(L) && Shape4(D, L.N, L.F, OutH(Geom(L)), OutW(Geom(L)))
  }

  /** The weight of filter channel K that input cell (r, q) meets in the
      window whose corner is (si, sj): the padded coordinate (r + pad, q + pad)
      taken relative to the corner, or 0 when it falls outside the filter. */
  function TapAt(K: seq<seq<real>>, r: int, q: int, si: int, sj: int, pad: nat): real {
    var a, bb := r + pad - si, q + pad - sj;
    if 0 <= a < |K| && 0 <= bb < |K[a]| then K[a][bb] else 0.0
  }

  /** Which gradient entry a sum is about, and so what each window's upstream
      gradient is multiplied by. */
  datatype Factor =
    | InputUnder(c: nat, a: int, bb: int)    // dw[f, c, a, bb]: the padded input under weight (a, bb)
    | WeightMeeting(c: nat, r: int, q: int)  // dx[n, c, r, q]: the weight that meets input (r, q)
    | Unit                                   // db[f]: one

  /** Example n and filter f exist, and so does the factor's channel. */
  predicate Operands(L: Layer, n: nat, f: nat, fac: Factor) {
    n < |L.x| && f < |L.w| && (!fac.Unit? ==> fac.c < |L.x[n]| && fac.c < |L.w[f]|)
  }

  /** The factor at the window whose top-left corner in the padded example
      is (si, sj). */
  function FactorAt(L: Layer, n: nat, f: nat, fac: Factor, si: int, sj: int): real
    requires Operands(L, n, f, fac)
  {
    match fac
    case InputUnder(c, a, bb) => Padded(L.x[n][c], si + a, sj + bb, L.param.pad)
    case WeightMeeting(c, r, q) => TapAt(L.w[f][c], r, q, si, sj, L.param.pad)
    case Unit => 1.0
  }

  /** Output cell (i, j)'s upstream gradient times the factor at its window,
      whose corner is (i * stride, j * stride). */
  function Contribution(L: Layer, G: seq<seq<real>>, n: nat, f: nat, fac: Factor, i: nat, j: nat): real
    requires Operands(L, n, f, fac) && i < |G| && j < |G[i]|
  {
    G[i][j] * FactorAt(L, n, f, fac, i * L.param.stride, j * L.param.stride)
  }

  /** Sum, over the cells (i', j') of the upstream-gradient plane G that come
      before (i, j) in row-major order, of G[i'][j'] times the factor at the
      window of output cell (i', j'), whose corner is (i' * stride, j' * stride). */
  function Accum(L: Layer, G: seq<seq<real>>, n: nat, f: nat, fac: Factor, i: nat, j: nat): real
    requires Operands(L, n, f, fac) && Prefix(G, i, j)
    decreases i, j
  {
    if j > 0 then Accum(L, G, n, f, fac, i, j - 1) + Contribution(L, G, n, f, fac, i, j - 1)
    else if i == 0 then 0.0
    else Accum(L, G, n, f, fac, i - 1, |G[i - 1]|)
  }

  /** Extending the row-major prefix by output cell (i, j) adds that cell's
      upstream gradient times the factor at its window. */
  lemma {:induction false} AccumStep(L: Layer, G: seq<seq<real>>, n: nat, f: nat, fac: Factor, i: nat, j: nat)
    requires Operands(L, n, f, fac) && i < |G| && j < |G[i]|
    ensures Prefix(G, NextCell(|G[i]|, i, j).0, NextCell(|G[i]|, i, j).1)
    ensures Accum(L, G, n, f, fac, NextCell(|G[i]|, i, j).0, NextCell(|G[i]|, i, j).1)
            == Accum(L, G, n, f, fac, i, j) + Contribution(L, G, n, f, fac, i, j)
  {
    if j + 1 == |G[i]| {
      assert Accum(L, G, n, f, fac, i + 1, 0) == Accum(L, G, n, f, fac, i, |G[i]|);
    }
  }

  /** AccumStep for every factor at once, with the window's corner given as
      (si, sj). */
  lemma WindowStep(L: Layer, G: seq<seq<real>>, n: nat, f: nat, i: nat, j: nat, si: int, sj: int)
    requires i < |G| && j < |G[i]| && si == i * L.param.stride && sj == j * L.param.stride
    ensures Prefix(G, NextCell(|G[i]|, i, j).0, NextCell(|G[i]|, i, j).1)
    ensures forall fac | Operands(L, n, f, fac) ::
              Accum(L, G, n, f, fac, NextCell(|G[i]|, i, j).0, NextCell(|G[i]|, i, j).1)
              == Accum(L, G, n, f, fac, i, j) + G[i][j] * FactorAt(L, n, f, fac, si, sj)
  {
    forall fac | Operands(L, n, f, fac)
      ensures Accum(L, G, n, f, fac, NextCell(|G[i]|, i, j).0, NextCell(|G[i]|, i, j).1)
              == Accum(L, G, n, f, fac, i, j) + G[i][j] * FactorAt(L, n, f, fac, si, sj)
    {
      AccumStep(L, G, n, f, fac, i, j);
      assert Contribution(L, G, n, f, fac, i, j) == G[i][j] * FactorAt(L, n, f, fac, si, sj);
    }
  }

  /** The total of plane (n, f) of dout weighted by the factor: what one run
      of the while loop adds to the gradient entry the factor stands for. */
  function PlaneTotal(L: Layer, D: Tensor4, n: nat, f: nat, fac: Factor): real
    requires Operands(L, n, f, fac) && n < |D| && f < |D[n]|
  {
    Accum(L, D[n][f], n, f, fac, |D[n][f]|, 0)
  }

  /** db[f] after examples 0 .. nn-1: the sum of dout[n, f, i, j] over those
      examples and every output cell. */
  function DbSpec(L: Layer, D: Tensor4, f: nat, nn: nat): real
    requires GradientShape(D, L) && f < L.F && nn <= L.N
  {
    if nn == 0 then 0.0 else DbSpec(L, D, f, nn - 1) + PlaneTotal(L, D, nn - 1, f, Unit)
  }

  /** dw[f, c, a, bb] after examples 0 .. nn-1: the sum over those examples
      and output cells of dout times the padded input under weight (a, bb). */
  function DwSpec(L: Layer, D: Tensor4, f: nat, c: nat, a: int, bb: int, nn: nat): real
    requires GradientShape(D, L) && f < L.F && c < L.C && nn <= L.N
  {
    if nn == 0 then 0.0 else DwSpec(L, D, f, c, a, bb, nn - 1) + PlaneTotal(L, D, nn - 1, f, InputUnder(c, a, bb))
  }

  /** dx[n, c, r, q] after filters 0 .. nf-1: the sum over those filters and
      output cells of dout times the weight that meets input (r, q). */
  function DxSpec(L: Layer, D: Tensor4, n: nat, c: nat, r: int, q: int, nf: nat): real
    requires GradientShape(D, L) && n < L.N && c < L.C && nf <= L.F
  {
    if nf == 0 then 0.0 else DxSpec(L, D, n, c, r, q, nf - 1) + PlaneTotal(L, D, n, nf - 1, WeightMeeting(c, r, q))
  }

  /** The innermost loop over pad_j, for row pad_i of channel c: each
      non-pad coordinate (pad_i, pad_j) adds the filter weight K[pad_i - si][pad_j - sj]
      times g to the input cell it maps to. */
  method ScatterRow(dx: array4<real>, K: seq<seq<real>>, n: nat, c: nat, padI: int, si: int, sj: int, pad: nat, g: real)
    requires n < dx.Length0 && c < dx.Length1 && si <= padI < si + |K|
    modifies dx
    ensures forall n', c', r, q | 0 <= n' < dx.Length0 && 0 <= c' < dx.Length1 && 0 <= r < dx.Length2 && 0 <= q < dx.Length3 ::
              dx[n', c', r, q] == old(dx[n', c', r, q]) +
                if n' == n && c' == c && r + pad == padI then TapAt(K, r, q, si, sj, pad) * g else 0.0
  {
    var paddedH, paddedW := dx.Length2 + 2 * pad, dx.Length3 + 2 * pad;
    var row := K[padI - si];
    forall r, q | q + pad < sj
      ensures TapAt(K, r, q, si, sj, pad) == 0.0
    {
    }
    for padJ := sj to sj + |row|
      invariant forall n', c', r, q | 0 <= n' < dx.Length0 && 0 <= c' < dx.Length1 && 0 <= r < dx.Length2 && 0 <= q < dx.Length3 ::
                  dx[n', c', r, q] == old(dx[n', c', r, q]) +
                    if n' == n && c' == c && r + pad == padI && q + pad < padJ then TapAt(K, r, q, si, sj, pad) * g else 0.0
    {
      if !IsPadCoordinate(padI, padJ, pad, paddedH, paddedW) {
        PadCoordinateExact(padI, padJ, pad, dx.Length2, dx.Length3);
        var (mappedI, mappedJ) := PaddedCoordinateToReg(padI, padJ, pad);
        dx[n, c, mappedI, mappedJ] := dx[n, c, mappedI, mappedJ] + row[padJ - sj] * g;
      }
    }
  }

  /** The loops over pad_i and pad_j for channel c: input cell (r, q) of
      channel c gains the weight of K at offset (r + pad - si, q + pad - sj)
      times g when that offset is inside the filter. */
  method ScatterChannel(dx: array4<real>, K: seq<seq<real>>, n: nat, c: nat, si: int, sj: int, pad: nat, g: real)
    requires n < dx.Length0 && c < dx.Length1
    modifies dx
    ensures forall n', c', r, q | 0 <= n' < dx.Length0 && 0 <= c' < dx.Length1 && 0 <= r < dx.Length2 && 0 <= q < dx.Length3 ::
              dx[n', c', r, q] == old(dx[n', c', r, q]) +
                if n' == n && c' == c then TapAt(K, r, q, si, sj, pad) * g else 0.0
  {
    forall r, q | r + pad < si
      ensures TapAt(K, r, q, si, sj, pad) == 0.0
    {
    }
    for padI := si to si + |K|
      invariant forall n', c', r, q | 0 <= n' < dx.Length0 && 0 <= c' < dx.Length1 && 0 <= r < dx.Length2 && 0 <= q < dx.Length3 ::
                  dx[n', c', r, q] == old(dx[n', c', r, q]) +
                    if n' == n && c' == c && r + pad < padI then TapAt(K, r, q, si, sj, pad) * g else 0.0
    {
      ScatterRow(dx, K, n, c, padI, si, sj, pad, g);
    }
  }

  /** The three nested loops over (pad_c, pad_i, pad_j) of one window with
      corner (si, sj), for the filter `current_w`: input cell (r, q) of every
      channel c of example n gains the weight of channel c at offset
      (r + pad - si, q + pad - sj) times g when that offset is inside the
      filter, and no other cell changes. */
  method ScatterInputGradient(dx: array4<real>, currentW: seq<seq<seq<real>>>, n: nat, si: int, sj: int, pad: nat, g: real)
    requires n < dx.Length0 && |currentW| == dx.Length1
    modifies dx
    ensures forall n', c, r, q | 0 <= n' < dx.Length0 && 0 <= c < dx.Length1 && 0 <= r < dx.Length2 && 0 <= q < dx.Length3 ::
              dx[n', c, r, q] == old(dx[n', c, r, q]) + if n' == n then TapAt(currentW[c], r, q, si, sj, pad) * g else 0.0
  {
    for padC := 0 to |currentW|
      invariant forall n', c, r, q | 0 <= n' < dx.Length0 && 0 <= c < dx.Length1 && 0 <= r < dx.Length2 && 0 <= q < dx.Length3 ::
                  dx[n', c, r, q] == old(dx[n', c, r, q]) + if n' == n && c < padC then TapAt(currentW[c], r, q, si, sj, pad) * g else 0.0
    {
      ScatterChannel(dx, currentW[padC], n, padC, si, sj, pad, g);
    }
  }

  /** `dw[f, :, :, :] += current_X * dout[n, f, out_i, out_j]` for the window
      with corner (si, sj) of the padded example: every weight of filter f
      gains the padded input under it times g, and no other weight changes. */
  method AccumulateWeightGradient(dw: array4<real>, example: seq<seq<seq<real>>>, f: nat, si: int, sj: int, pad: nat, g: real)
    requires f < dw.Length0 && |example| == dw.Length1
    modifies dw
    ensures forall f', c, a, bb | 0 <= f' < dw.Length0 && 0 <= c < dw.Length1 && 0 <= a < dw.Length2 && 0 <= bb < dw.Length3 ::
              dw[f', c, a, bb] == old(dw[f', c, a, bb]) + if f' == f then Padded(example[c], si + a, sj + bb, pad) * g else 0.0
  {
    forall c, a, bb | 0 <= c < dw.Length1 && 0 <= a < dw.Length2 && 0 <= bb < dw.Length3 {
      dw[f, c, a, bb] := dw[f, c, a, bb] + Padded(example[c], si + a, sj + bb, pad) * g;
    }
  }

  /** dx has the shape of x, dw that of w and db that of b. */
  predicate GradientBuffers(L: Layer, dx: array4<real>, dw: array4<real>, db: array<real>) {
    && dx.Length0 == L.N && dx.Length1 == L.C && dx.Length2 == L.H && dx.Length3 == L.W
    && dw.Length0 == L.F && dw.Length1 == L.WC && dw.Length2 == L.HH && dw.Length3 == L.WW
    && db.Length == L.F && dx != dw
  }

  /** dw holds its starting contents dw0 plus, in filter f, what the windows
      of the output cells of plane G before (i, j) contribute for example n. */
  ghost predicate WeightsBefore(L: Layer, G: seq<seq<real>>, n: nat, f: nat, i: nat, j: nat, dw: array4<real>, dw0: Tensor4)
    reads dw
  {
    && n < |L.x| && f < |L.w| && |L.x[n]| == dw.Length1 == |L.w[f]| && Prefix(G, i, j)
    && Shape4(dw0, dw.Length0, dw.Length1, dw.Length2, dw.Length3)
    && forall f', c, a, bb | 0 <= f' < dw.Length0 && 0 <= c < dw.Length1 && 0 <= a < dw.Length2 && 0 <= bb < dw.Length3 ::
         dw[f', c, a, bb] == dw0[f'][c][a][bb] + if f' == f then Accum(L, G, n, f, InputUnder(c, a, bb), i, j) else 0.0
  }

  /** dx holds its starting contents dx0 plus, in example n, what the windows
      of the output cells of plane G before (i, j) contribute for filter f. */
  ghost predicate InputsBefore(L: Layer, G: seq<seq<real>>, n: nat, f: nat, i: nat, j: nat, dx: array4<real>, dx0: Tensor4)
    reads dx
  {
    && n < |L.x| && f < |L.w| && |L.x[n]| == dx.Length1 == |L.w[f]| && Prefix(G, i, j)
    && Shape4(dx0, dx.Length0, dx.Length1, dx.Length2, dx.Length3)
    && forall n', c, r, q | 0 <= n' < dx.Length0 && 0 <= c < dx.Length1 && 0 <= r < dx.Length2 && 0 <= q < dx.Length3 ::
         dx[n', c, r, q] == dx0[n'][c][r][q] + if n' == n then Accum(L, G, n, f, WeightMeeting(c, r, q), i, j) else 0.0
  }

  /** db holds its starting contents db0 plus, at filter f, the upstream
      gradients of the output cells of plane G before (i, j). */
  ghost predicate BiasBefore(L: Layer, G: seq<seq<real>>, n: nat, f: nat, i: nat, j: nat, db: array<real>, db0: seq<real>)
    reads db
  {
    && n < |L.x| && f < |L.w| && Prefix(G, i, j) && |db0| == db.Length
    && forall f' | 0 <= f' < db.Length :: db[f'] == db0[f'] + if f' == f then Accum(L, G, n, f, Unit, i, j) else 0.0
  }

  /** The dw update of the window of output cell (i, j), whose corner is
      (si, sj): the weight gradient moves on to the next cell. */
  method AdvanceWeights(L: Layer, G: seq<seq<real>>, n: nat, f: nat, i: nat, j: nat, si: int, sj: int, dw: array4<real>, ghost dw0: Tensor4)
    requires WeightsBefore(L, G, n, f, i, j, dw, dw0) && f < dw.Length0
    requires i < |G| && j < |G[i]| && si == i * L.param.stride && sj == j * L.param.stride
    modifies dw
    ensures WeightsBefore(L, G, n, f, NextCell(|G[i]|, i, j).0, NextCell(|G[i]|, i, j).1, dw, dw0)
  {
    var next := NextCell(|G[i]|, i, j);
    WindowStep(L, G, n, f, i, j, si, sj);
    AccumulateWeightGradient(dw, L.x[n], f, si, sj, L.param.pad, G[i][j]);
    forall c, a, bb | 0 <= c < dw.Length1 && 0 <= a < dw.Length2 && 0 <= bb < dw.Length3
      ensures dw[f, c, a, bb] == dw0[f][c][a][bb] + Accum(L, G, n, f, InputUnder(c, a, bb), next.0, next.1)
    {
      assert Operands(L, n, f, InputUnder(c, a, bb));
    }
  }

  /** The dx update of the window of output cell (i, j), whose corner is
      (si, sj): the input gradient moves on to the next cell. */
  method AdvanceInputs(L: Layer, G: seq<seq<real>>, n: nat, f: nat, i: nat, j: nat, si: int, sj: int, dx: array4<real>, ghost dx0: Tensor4)
    requires InputsBefore(L, G, n, f, i, j, dx, dx0) && n < dx.Length0
    requires i < |G| && j < |G[i]| && si == i * L.param.stride && sj == j * L.param.stride
    modifies dx
    ensures InputsBefore(L, G, n, f, NextCell(|G[i]|, i, j).0, NextCell(|G[i]|, i, j).1, dx, dx0)
  {
    var next := NextCell(|G[i]|, i, j);
    WindowStep(L, G, n, f, i, j, si, sj);
    ScatterInputGradient(dx, L.w[f], n, si, sj, L.param.pad, G[i][j]);
    forall c, r, q | 0 <= c < dx.Length1 && 0 <= r < dx.Length2 && 0 <= q < dx.Length3
      ensures dx[n, c, r, q] == dx0[n][c][r][q] + Accum(L, G, n, f, WeightMeeting(c, r, q), next.0, next.1)
    {
      assert Operands(L, n, f, WeightMeeting(c, r, q));
    }
  }

  /** The db update of the window of output cell (i, j): the bias gradient
      moves on to the next cell. */
  method AdvanceBias(L: Layer, G: seq<seq<real>>, n: nat, f: nat, i: nat, j: nat, db: array<real>, ghost db0: seq<real>)
    requires BiasBefore(L, G, n, f, i, j, db, db0) && f < db.Length && i < |G| && j < |G[i]|
    modifies db
    ensures BiasBefore(L, G, n, f, NextCell(|G[i]|, i, j).0, NextCell(|G[i]|, i, j).1, db, db0)
  {
    AccumStep(L, G, n, f, Unit, i, j);
    db[f] := db[f] + G[i][j];
  }

  /** The while loop of one (example, filter) pair: every window adds its
      upstream gradient to db[f], times its padded input window to dw[f],
      and times the filter to the input cells of example n it covers. */
  method ConvBackwardPlane(L: Layer, D: Tensor4, n: nat, f: nat, dx: array4<real>, dw: array4<real>, db: array<real>)
    requires GradientShape(D, L) && n < L.N && f < L.F && GradientBuffers(L, dx, dw, db)
    modifies dx, dw, db
    ensures forall f', c, a, bb | 0 <= f' < dw.Length0 && 0 <= c < dw.Length1 && 0 <= a < dw.Length2 && 0 <= bb < dw.Length3 ::
              dw[f', c, a, bb] == old(dw[f', c, a, bb]) + if f' == f then PlaneTotal(L, D, n, f, InputUnder(c, a, bb)) else 0.0
    ensures forall n', c, r, q | 0 <= n' < dx.Length0 && 0 <= c < dx.Length1 && 0 <= r < dx.Length2 && 0 <= q < dx.Length3 ::
              dx[n', c, r, q] == old(dx[n', c, r, q]) + if n' == n then PlaneTotal(L, D, n, f, WeightMeeting(c, r, q)) else 0.0
    ensures forall f' | 0 <= f' < db.Length ::
              db[f'] == old(db[f']) + if f' == f then PlaneTotal(L, D, n, f, Unit) else 0.0
  {
    var g := Geom(L);
    var wPrime := OutW(g);
    var G := D[n][f];
    ghost var dx0, dw0, db0 := Snapshot(dx), Snapshot(dw), db[..];
    forall c, a, bb | 0 <= c < L.C
      ensures Accum(L, G, n, f, InputUnder(c, a, bb), 0, 0) == 0.0
    {
    }
    forall c, r, q | 0 <= c < L.C
      ensures Accum(L, G, n, f, WeightMeeting(c, r, q), 0, 0) == 0.0
    {
    }
    assert Accum(L, G, n, f, Unit, 0, 0) == 0.0;
    var cur := Origin;
    while cur.startI + g.winH <= g.fieldH
      invariant OnGrid(g, cur)
      invariant WeightsBefore(L, G, n, f, cur.outI, cur.outJ, dw, dw0)
      invariant InputsBefore(L, G, n, f, cur.outI, cur.outJ, dx, dx0)
      invariant BiasBefore(L, G, n, f, cur.outI, cur.outJ, db, db0)
      decreases OutH(g) - cur.outI, OutW(g) - cur.outJ
    {
      GuardExact(g, cur);
      var i, j := cur.outI, cur.outJ;
      AdvanceLockstep(g, cur);
      var next := Advance(g, wPrime, cur);
      assert next.outI == NextCell(|G[i]|, i, j).0 && next.outJ == NextCell(|G[i]|, i, j).1;
      AdvanceWeights(L, G, n, f, i, j, cur.startI, cur.startJ, dw, dw0);
      AdvanceInputs(L, G, n, f, i, j, cur.startI, cur.startJ, dx, dx0);
      AdvanceBias(L, G, n, f, i, j, db, db0);
      cur := next;
    }
    GuardExact(g, cur);
    assert WeightsBefore(L, G, n, f, |G|, 0, dw, dw0);
    assert InputsBefore(L, G, n, f, |G|, 0, dx, dx0);
    assert BiasBefore(L, G, n, f, |G|, 0, db, db0);
  }

  /** The loop over the filters of one example n: dx[n] receives every
      filter's windows, and every db[f] and dw[f] gains example n's share. */
  method ConvBackwardExample(L: Layer, D: Tensor4, n: nat, dx: array4<real>, dw: array4<real>, db: array<real>)
    requires GradientShape(D, L) && n < L.N && GradientBuffers(L, dx, dw, db)
    modifies dx, dw, db
    ensures forall n', c, r, q | 0 <= n' < dx.Length0 && 0 <= c < dx.Length1 && 0 <= r < dx.Length2 && 0 <= q < dx.Length3 ::
              dx[n', c, r, q] == old(dx[n', c, r, q]) + if n' == n then DxSpec(L, D, n, c, r, q, L.F) else 0.0
    ensures forall f, c, a, bb | 0 <= f < dw.Length0 && 0 <= c < dw.Length1 && 0 <= a < dw.Length2 && 0 <= bb < dw.Length3 ::
              dw[f, c, a, bb] == old(dw[f, c, a, bb]) + PlaneTotal(L, D, n, f, InputUnder(c, a, bb))
    ensures forall f | 0 <= f < db.Length :: db[f] == old(db[f]) + PlaneTotal(L, D, n, f, Unit)
  {
    forall c, r, q | 0 <= c < L.C
      ensures DxSpec(L, D, n, c, r, q, 0) == 0.0
    {
    }
    for f := 0 to L.F
      invariant forall n', c, r, q | 0 <= n' < dx.Length0 && 0 <= c < dx.Length1 && 0 <= r < dx.Length2 && 0 <= q < dx.Length3 ::
                  dx[n', c, r, q] == old(dx[n', c, r, q]) + if n' == n then DxSpec(L, D, n, c, r, q, f) else 0.0
      invariant forall f', c, a, bb | 0 <= f' < dw.Length0 && 0 <= c < dw.Length1 && 0 <= a < dw.Length2 && 0 <= bb < dw.Length3 ::
                  dw[f', c, a, bb] == old(dw[f', c, a, bb]) + if f' < f then PlaneTotal(L, D, n, f', InputUnder(c, a, bb)) else 0.0
      invariant forall f' | 0 <= f' < db.Length ::
                  db[f'] == old(db[f']) + if f' < f then PlaneTotal(L, D, n, f', Unit) else 0.0
    {
      ConvBackwardPlane(L, D, n, f, dx, dw, db);
    }
  }

  /** The loop over the examples, on the values of the cache and of dout:
      dx, dw and db start at zero and end holding the full sums. */
  method BackwardSums(L: Layer, D: Tensor4) returns (dx: array4<real>, dw: array4<real>, db: array<real>)
    requires GradientShape(D, L)
    ensures fresh(dx) && fresh(dw) && fresh(db) && GradientBuffers(L, dx, dw, db)
    ensures forall n, c, r, q | 0 <= n < dx.Length0 && 0 <= c < dx.Length1 && 0 <= r < dx.Length2 && 0 <= q < dx.Length3 ::
              dx[n, c, r, q] == DxSpec(L, D, n, c, r, q, L.F)
    ensures forall f, c, a, bb | 0 <= f < dw.Length0 && 0 <= c < dw.Length1 && 0 <= a < dw.Length2 && 0 <= bb < dw.Length3 ::
              dw[f, c, a, bb] == DwSpec(L, D, f, c, a, bb, L.N)
    ensures forall f | 0 <= f < db.Length :: db[f] == DbSpec(L, D, f, L.N)
  {
    dx := new real[L.N, L.C, L.H, L.W]((_, _, _, _) => 0.0);
    dw := new real[L.F, L.WC, L.HH, L.WW]((_, _, _, _) => 0.0);
    db := new real[L.F](_ => 0.0);
    forall f, c, a, bb | 0 <= f < L.F && 0 <= c < L.C
      ensures DwSpec(L, D, f, c, a, bb, 0) == 0.0
    {
    }
    forall f | 0 <= f < L.F
      ensures DbSpec(L, D, f, 0) == 0.0
    {
    }
    for n := 0 to L.N
      invariant forall n', c, r, q | 0 <= n' < dx.Length0 && 0 <= c < dx.Length1 && 0 <= r < dx.Length2 && 0 <= q < dx.Length3 ::
                  dx[n', c, r, q] == if n' < n then DxSpec(L, D, n', c, r, q, L.F) else 0.0
      invariant forall f, c, a, bb | 0 <= f < dw.Length0 && 0 <= c < dw.Length1 && 0 <= a < dw.Length2 && 0 <= bb < dw.Length3 ::
                  dw[f, c, a, bb] == DwSpec(L, D, f, c, a, bb, n)
      invariant forall f | 0 <= f < db.Length :: db[f] == DbSpec(L, D, f, n)
    {
      ConvBackwardExample(L, D, n, dx, dw, db);
    }
  }

  /** `conv_backward_naive`: dx, dw and db have the shapes of x, w and b;
      db[f] is the sum of dout[n, f, i, j] over every example and output
      cell; dw[f, c, a, bb] sums dout times the padded input under weight
      (a, bb); dx[n, c, r, q] sums, over filters and output cells, dout
      times the weight that meets (r, q) in that cell's window. */
  method ConvBackwardNaive(dout: array4<real>, cache: ConvCache) returns (dx: array4<real>, dw: array4<real>, db: array<real>)
    requires GradientShape(Snapshot(dout), Values(cache))
    ensures fresh(dx) && fresh(dw) && fresh(db)
    ensures dx.Length0 == cache.x.Length0 && dx.Length1 == cache.x.Length1 && dx.Length2 == cache.x.Length2 && dx.Length3 == cache.x.Length3
    ensures dw.Length0 == cache.w.Length0 && dw.Length1 == cache.w.Length1 && dw.Length2 == cache.w.Length2 && dw.Length3 == cache.w.Length3
    ensures db.Length == cache.b.Length
    ensures forall n, c, r, q | 0 <= n < dx.Length0 && 0 <= c < dx.Length1 && 0 <= r < dx.Length2 && 0 <= q < dx.Length3 ::
              dx[n, c, r, q] == DxSpec(old(Values(cache)), old(Snapshot(dout)), n, c, r, q, dw.Length0)
    ensures forall f, c, a, bb | 0 <= f < dw.Length0 && 0 <= c < dw.Length1 && 0 <= a < dw.Length2 && 0 <= bb < dw.Length3 ::
              dw[f, c, a, bb] == DwSpec(old(Values(cache)), old(Snapshot(dout)), f, c, a, bb, dx.Length0)
    ensures forall f | 0 <= f < db.Length :: db[f] == DbSpec(old(Values(cache)), old(Snapshot(dout)), f, dx.Length0)
  {
    var L, D := Values(cache), Snapshot(dout);
    dx, dw, db := BackwardSums(L, D);
  }

  /** With the single weight 1 (a 1x1 filter, stride 1, no padding), a
      row-major prefix of the sum for dx[n, 0, r, q] has picked up G[r][q]
      exactly when it covers output cell (r, q). */
  lemma {:induction false} IdentityAccum(L: Layer, G: seq<seq<real>>, n: nat, r: nat, q: nat, i: nat, j: nat)
    requires L.param == ConvParam(1, 0) && n < |L.x| && |L.x[n]| == 1 && L.w == [[[[1.0]]]]
    requires r < |G| && q < |G[r]| && Prefix(G, i, j)
    ensures Accum(L, G, n, 0, WeightMeeting(0, r, q), i, j) == if Before(r, q, i, j) then G[r][q] else 0.0
    decreases i, j
  {
    if j > 0 {
      IdentityAccum(L, G, n, r, q, i, j - 1);
    } else if i > 0 {
      IdentityAccum(L, G, n, r, q, i - 1, |G[i - 1]|);
    }
  }

  /** For the identity layer every input cell meets the filter in exactly one
      window, so the backward pass hands dout straight back: dx == dout. */
  lemma IdentityFilterBackward(L: Layer, D: Tensor4, n: nat, r: nat, q: nat)
    requires L.param == ConvParam(1, 0) && L.C == 1 && L.F == 1 && L.WC == 1 && L.HH == 1 && L.WW == 1 && L.w == [[[[1.0]]]]
    requires GradientShape(D, L) && n < L.N && r < L.H && q < L.W
    ensures |D[n][0]| == L.H && |D[n][0][r]| == L.W
    ensures DxSpec(L, D, n, 0, r, q, 1) == D[n][0][r][q]
  {
    assert OutH(Geom(L)) == L.H && OutW(Geom(L)) == L.W;
    IdentityAccum(L, D[n][0], n, r, q, |D[n][0]|, 0);
  }

  /** The bias gradient of one plane is the plain sum of that plane of dout. */
  lemma {:induction false} UnitAccumIsGridSum(L: Layer, G: seq<seq<real>>, w: nat, n: nat, f: nat, i: nat, j: nat)
    requires Operands(L, n, f, Unit) && Rect(G, |G|, w)
    requires i <= |G| && j <= w && (j > 0 ==> i < |G|)
    ensures Prefix(G, i, j) || (i == |G| && j == w && w == 0)
    ensures Prefix(G, i, j) ==> Accum(L, G, n, f, Unit, i, j) == GridSum(G, w, i, j)
    decreases i, j
  {
    if j > 0 {
      UnitAccumIsGridSum(L, G, w, n, f, i, j - 1);
    } else if i > 0 {
      UnitAccumIsGridSum(L, G, w, n, f, i - 1, w);
    }
  }
}
