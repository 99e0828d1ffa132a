/** The sliding-window traversal shared by the convolution and max-pooling
    kernels of layers.py.

    Each kernel sweeps a window of `winH` by `winW` over a field of
    `fieldH` by `fieldW` (the zero-padded example for convolution, the raw
    example for pooling) with a `while` loop that keeps two pairs of
    counters: the window's top-left corner (start_i, start_j), moved by
    `stride`, and the output cell (out_i, out_j), moved by one. Both pairs
    wrap to the next row on their own test. This module proves that, when
    the column steps end exactly on the field's right edge, the two pairs move in lockstep
    (start = out * stride) through every output cell in row-major order. */
module Sweep {
  import opened Grids

  /** Field size, window size and stride of one sweep. */
  datatype Geometry = Geometry(fieldH: int, fieldW: int, winH: int, winW: int, stride: int)

  /** The loop state of a sweep: window corner and output cell. */
  datatype Cursor = Cursor(startI: int, startJ: int, outI: int, outJ: int)

  /** The state every sweep starts from. */
  const Origin := Cursor(0, 0, 0, 0)

  /** The stride is positive, the window is non-empty and fits in the
      field, and the column steps land exactly on the field's right edge.
      Only the width needs to divide: the start row moves whenever the start
      column wraps, and the loop guard stops the rows on its own. */
  predicate Tiles(g: Geometry) {
    && g.stride > 0
    && 0 < g.winH <= g.fieldH && 0 < g.winW <= g.fieldW
    && (g.fieldW - g.winW) % g.stride == 0
  }

  /** Output size along one axis, 1 + (field - win) / stride: the number of
      window positions 0, stride, 2 * stride, ... that fit in the field. */
  function OutDim(field: int, win: int, stride: int): (d: int)
    requires stride > 0 && win <= field
    ensures d >= 1
    ensures (d - 1) * stride + win <= field < d * stride + win
  {
    var k := (field - win) / stride;
    assert k * stride <= field - win < k * stride + stride;
    1 + k
  }

  function OutH(g: Geometry): int
    requires g.stride > 0 && g.winH <= g.fieldH
  {
    OutDim(g.fieldH, g.winH, g.stride)
  }

  function OutW(g: Geometry): int
    requires g.stride > 0 && g.winW <= g.fieldW
  {
    OutDim(g.fieldW, g.winW, g.stride)
  }

  /** When the column steps divide the field, the last window of a row ends
      on the field's right edge. */
  lemma ExactFit(g: Geometry)
    requires Tiles(g)
    ensures (OutW(g) - 1) * g.stride + g.winW == g.fieldW
  {
    var kw := (g.fieldW - g.winW) / g.stride;
    assert kw * g.stride == g.fieldW - g.winW;
  }

  /** One step of the cursor: the start column wraps once the window touches
      the right edge, the output column once it reaches `outW - 1`. */
  function Advance(g: Geometry, outW: int, c: Cursor): Cursor
  {
    var wrapStart := c.startJ + g.winW >= g.fieldW;
    var wrapOut := c.outJ == outW - 1;
    Cursor(
      if wrapStart then c.startI + g.stride else c.startI,
      if wrapStart then 0 else c.startJ + g.stride,
      if wrapOut then c.outI + 1 else c.outI,
      if wrapOut then 0 else c.outJ + 1)
  }

  /** The cursor sits on output cell (outI, outJ), its window starts at
      (outI * stride, outJ * stride), and it has not gone past the end. */
  predicate OnGrid(g: Geometry, c: Cursor)
    requires Tiles(g)
  {
    && c.startI == c.outI * g.stride && c.startJ == c.outJ * g.stride
    && 0 <= c.outI <= OutH(g) && 0 <= c.outJ < OutW(g)
    && (c.outI == OutH(g) ==> c.outJ == 0)
  }

  /** The loop guard start_i + winH <= fieldH holds exactly while rows of
      output cells remain. */
  lemma GuardExact(g: Geometry, c: Cursor)
    requires Tiles(g) && OnGrid(g, c)
    ensures c.startI + g.winH <= g.fieldH <==> c.outI < OutH(g)
  {
    if c.outI < OutH(g) {
      MulMono(c.outI, OutH(g) - 1, g.stride);
    } else {
      assert c.startI == OutH(g) * g.stride;
    }
  }

  /** A window of an output cell lies inside the field. */
  lemma CellWindowInField(g: Geometry, i: int, j: int)
    requires Tiles(g) && 0 <= i < OutH(g) && 0 <= j < OutW(g)
    ensures 0 <= i * g.stride && i * g.stride + g.winH <= g.fieldH
    ensures 0 <= j * g.stride && j * g.stride + g.winW <= g.fieldW
  {
    ExactFit(g);
    MulMono(0, i, g.stride);
    MulMono(i, OutH(g) - 1, g.stride);
    MulMono(0, j, g.stride);
    MulMono(j, OutW(g) - 1, g.stride);
  }

  /** One step moves both counter pairs to the next output cell in row-major
      order, keeping start = out * stride: the start column wraps exactly
      when the output column does. */
  lemma AdvanceLockstep(g: Geometry, c: Cursor)
    requires Tiles(g) && OnGrid(g, c) && c.outI < OutH(g)
    ensures OnGrid(g, Advance(g, OutW(g), c))
    ensures Advance(g, OutW(g), c).outI == if c.outJ == OutW(g) - 1 then c.outI + 1 else c.outI
    ensures Advance(g, OutW(g), c).outJ == if c.outJ == OutW(g) - 1 then 0 else c.outJ + 1
  {
    ExactFit(g);
    var w := OutW(g);
    assert (c.outI + 1) * g.stride == c.startI + g.stride;
    assert (c.outJ + 1) * g.stride == c.startJ + g.stride;
    if c.outJ == w - 1 {
      assert c.startJ + g.winW == g.fieldW;
    } else {
      MulMono(c.outJ + 1, w - 1, g.stride);
      assert c.startJ + g.winW < g.fieldW;
    }
  }
}
