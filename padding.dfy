/** Zero padding of a convolution input and the two coordinate helpers of
    layers.py, `is_pad_coordinate` and `padded_coordinate_to_reg`. */
module Padding {
  import opened Grids

  /** `is_pad_coordinate`: (i, j) of a padded example of size
      paddedH by paddedW lies in the border of width `pad`. */
  predicate IsPadCoordinate(i: int, j: int, pad: int, paddedH: int, paddedW: int) {
    i < pad || i >= paddedH - pad || j < pad || j >= paddedW - pad
  }

  /** `padded_coordinate_to_reg`: the coordinate of the unpadded example that a
      padded coordinate stands for. */
  function PaddedCoordinateToReg(i: int, j: int, pad: int): (rc: (int, int))
    ensures rc.0 + pad == i && rc.1 + pad == j
  {
    (i - pad, j - pad)
  }

  /** With the padded size H + 2 * pad by W + 2 * pad, a coordinate is not a pad
      coordinate exactly when it maps to a coordinate inside the H by W example;
      and every example coordinate is reached that way from (r + pad, q + pad). */
  lemma PadCoordinateExact(i: int, j: int, pad: nat, h: nat, w: nat)
    ensures !IsPadCoordinate(i, j, pad, h + 2 * pad, w + 2 * pad)
            <==> 0 <= PaddedCoordinateToReg(i, j, pad).0 < h && 0 <= PaddedCoordinateToReg(i, j, pad).1 < w
    ensures PaddedCoordinateToReg(i, j, pad).0 + pad == i && PaddedCoordinateToReg(i, j, pad).1 + pad == j
  {
  }

  /** Element (i, j) of channel P of an example after `np.pad` with `pad`
      zeros on each side of both spatial axes. */
  function Padded(P: seq<seq<real>>, i: int, j: int, pad: nat): real {
    if pad <= i && i - pad < |P| && pad <= j && j - pad < |P[i - pad]| then P[i - pad][j - pad] else 0.0
  }

  /** The padded channel holds P in its interior and zeros on its border:
      its pad coordinates are exactly its zero border. */
  lemma PaddedMatchesPadCoordinates(P: seq<seq<real>>, h: nat, w: nat, i: int, j: int, pad: nat)
    requires Rect(P, h, w)
    ensures IsPadCoordinate(i, j, pad, h + 2 * pad, w + 2 * pad) ==> Padded(P, i, j, pad) == 0.0
    ensures !IsPadCoordinate(i, j, pad, h + 2 * pad, w + 2 * pad) ==> Padded(P, i, j, pad) == P[i - pad][j - pad]
  {
  }

  /** The h by wd patch of padded channel P whose top-left corner is
      (si, sj): the window a kernel reads. */
  function PaddedWindow(P: seq<seq<real>>, si: int, sj: int, pad: nat, h: nat, wd: nat): (p: seq<seq<real>>)
    ensures Rect(p, h, wd)
    ensures forall a, bb :: 0 <= a < h && 0 <= bb < wd ==> p[a][bb] == Padded(P, si + a, sj + bb, pad)
  {
    seq(h, a requires 0 <= a => seq(wd, bb requires 0 <= bb => Padded(P, si + a, sj + bb, pad)))
  }
}
