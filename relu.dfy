/** `relu_forward` and `relu_backward` of layers.py. Both act element by
    element on arrays of any shape, so they are modelled on the row-major
    contents of the array; the shape is carried along unchanged. */
module Relu {
  import opened Grids

  /** `np.maximum(0, x)` of one element. */
  function Rect0(v: real): (r: real)
    ensures r >= 0.0 && r >= v && (r == v || r == 0.0)
  {
    if v > 0.0 then v else 0.0
  }

  /** `(x > 0).astype(int)` of one element: the strict mask, 0 at x == 0. */
  function Mask(v: real): (m: real)
    ensures m == 1.0 <==> v > 0.0
    ensures m == 0.0 <==> v <= 0.0
  {
    if v > 0.0 then 1.0 else 0.0
  }

  /** `relu_forward`: out = max(0, x) element by element. */
  function ReluForward(x: seq<real>): (out: seq<real>)
    ensures |out| == |x|
    ensures forall i :: 0 <= i < |x| ==> out[i] >= 0.0 && out[i] >= x[i]
    ensures forall i :: 0 <= i < |x| ==> (out[i] == x[i] <==> x[i] >= 0.0) && (out[i] == 0.0 <==> x[i] <= 0.0)
  {
    seq(|x|, i requires 0 <= i < |x| => Rect0(x[i]))
  }

  /** `relu_backward`: dout is passed through where x > 0 and blocked where
      x <= 0, including x == 0. */
  function ReluBackward(dout: seq<real>, x: seq<real>): (dx: seq<real>)
    requires |dout| == |x|
    ensures |dx| == |x|
    ensures forall i :: 0 <= i < |x| ==> dx[i] == if x[i] > 0.0 then dout[i] else 0.0
  {
    seq(|x|, i requires 0 <= i < |x| => dout[i] * Mask(x[i]))
  }

  /** Applying the ReLU twice is applying it once. */
  lemma ReluIdempotent(x: seq<real>)
    ensures ReluForward(ReluForward(x)) == ReluForward(x)
  {
  }

  /** Every input is the ReLU of itself minus the ReLU of its negation. */
  lemma ReluSplitsSign(x: seq<real>)
    ensures forall i :: 0 <= i < |x| ==> x[i] == ReluForward(x)[i] - ReluForward(Negate(x))[i]
  {
  }

  /** `-x`. */
  function Negate(x: seq<real>): (y: seq<real>)
    ensures |y| == |x| && forall i :: 0 <= i < |x| ==> y[i] == -x[i]
  {
    seq(|x|, i requires 0 <= i < |x| => -x[i])
  }

  /** The backward mask is the slope of the forward pass: the ReLU is
      positively homogeneous, so pairing the input gradient with x gives the
      same as pairing the upstream gradient with the output,
      sum(dx * x) == sum(dout * relu(x)). */
  lemma {:induction false} ReluEuler(dout: seq<real>, x: seq<real>, k: nat)
    requires |dout| == |x| && k <= |x|
    ensures RowDot(ReluBackward(dout, x), x, k) == RowDot(dout, ReluForward(x), k)
  {
    if k > 0 {
      ReluEuler(dout, x, k - 1);
    }
  }

  /** Shifting one input by t without crossing zero changes its output by
      t times the mask the backward pass uses. */
  lemma ReluLocalSlope(v: real, t: real)
    requires v > 0.0 ==> v + t > 0.0
    requires v <= 0.0 ==> v + t <= 0.0
    ensures Rect0(v + t) - Rect0(v) == t * Mask(v)
  {
  }
}
