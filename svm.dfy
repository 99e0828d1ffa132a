/** `svm_loss` of layers.py: the multiclass hinge loss of an N by C grid of
    class scores and its gradient. */
module Svm {
  import opened Grids
  import opened Relu

  /** x is an N by C grid of scores and every label y[n] names a class. */
  predicate Scores(x: seq<seq<real>>, y: seq<int>, C: nat) {
    Rect(x, |x|, C) && |y| == |x| && forall n :: 0 <= n < |y| ==> 0 <= y[n] < C
  }

  /** `margins[n, c]` once line 831 has zeroed the correct classes: the hinge
      max(0, x[n, c] - x[n, y[n]] + 1) for the other classes. */
  function Margin(x: seq<seq<real>>, y: seq<int>, C: nat, n: nat, c: nat): (m: real)
    requires Scores(x, y, C) && n < |x| && c < C
    ensures m >= 0.0
    ensures c == y[n] ==> m == 0.0
    ensures c != y[n] ==> m >= x[n][c] - x[n][y[n]] + 1.0
    ensures m > 0.0 <==> c != y[n] && x[n][c] - x[n][y[n]] + 1.0 > 0.0
    ensures m > 0.0 ==> m == x[n][c] - x[n][y[n]] + 1.0
  {
    if c == y[n] then 0.0 else Rect0(x[n][c] - x[n][y[n]] + 1.0)
  }

  /** The grid of margins. */
  function Margins(x: seq<seq<real>>, y: seq<int>, C: nat): (M: seq<seq<real>>)
    requires Scores(x, y, C)
    ensures Rect(M, |x|, C)
    ensures forall n, c :: 0 <= n < |x| && 0 <= c < C ==> M[n][c] == Margin(x, y, C, n, c)
  {
    seq(|x|, n requires 0 <= n < |x| => seq(C, c requires 0 <= c < C => Margin(x, y, C, n, c)))
  }

  /** Number of positive entries among v[0 .. k-1]. */
  function CountPositive(v: seq<real>, k: nat): (cnt: nat)
    requires k <= |v|
    ensures cnt <= k
  {
    if k == 0 then 0 else CountPositive(v, k - 1) + (if v[k - 1] > 0.0 then 1 else 0)
  }

  /** An entry that is not positive among the first k is never counted, so
      at most k - 1 of them are positive. */
  lemma {:induction false} CountPositiveSkips(v: seq<real>, k: nat, z: nat)
    requires k <= |v| && z < k && v[z] <= 0.0
    ensures CountPositive(v, k) <= k - 1
  {
    if z < k - 1 {
      CountPositiveSkips(v, k - 1, z);
    }
  }

  /** `num_pos[n]`: how many classes of example n have a positive margin.
      The correct class's margin is 0, so at most C - 1 classes count. */
  function NumPos(x: seq<seq<real>>, y: seq<int>, C: nat, n: nat): (cnt: nat)
    requires Scores(x, y, C) && n < |x|
    ensures cnt < C
  {
    CountPositiveSkips(Margins(x, y, C)[n], C, y[n]);
    CountPositive(Margins(x, y, C)[n], C)
  }

  /** `dx[n, c]`: 1 / N for every class with a positive margin, and
      -num_pos[n] / N for the correct class. */
  function Grad(x: seq<seq<real>>, y: seq<int>, C: nat, n: nat, c: nat): (d: real)
    requires Scores(x, y, C) && n < |x| && c < C
    ensures c != y[n] ==> d == if Margin(x, y, C, n, c) > 0.0 then 1.0 / |x| as real else 0.0
    ensures c == y[n] ==> d == -(NumPos(x, y, C, n) as real) / |x| as real
  {
    var positive := if Margins(x, y, C)[n][c] > 0.0 then 1.0 else 0.0;
    var correct := if c == y[n] then NumPos(x, y, C, n) as real else 0.0;
    (positive - correct) / |x| as real
  }

  /** The gradient as a grid. */
  function Grads(x: seq<seq<real>>, y: seq<int>, C: nat): (G: seq<seq<real>>)
    requires Scores(x, y, C)
    ensures Rect(G, |x|, C)
    ensures forall n, c :: 0 <= n < |x| && 0 <= c < C ==> G[n][c] == Grad(x, y, C, n, c)
  {
    seq(|x|, n requires 0 <= n < |x| => seq(C, c requires 0 <= c < C => Grad(x, y, C, n, c)))
  }

  /** The loss: the sum of all margins divided by N. */
  function Loss(x: seq<seq<real>>, y: seq<int>, C: nat): real
    requires Scores(x, y, C) && |x| > 0
  {
    GridSum(Margins(x, y, C), C, |x|, 0) / |x| as real
  }

  /** Lines 829-831: margins = max(0, x - x[n, y[n]] + 1) row by row, then
      the correct classes set to 0. */
  method HingeMargins(x: seq<seq<real>>, y: seq<int>, C: nat) returns (margins: array2<real>)
    requires Scores(x, y, C)
    ensures fresh(margins) && Snapshot2(margins) == Margins(x, y, C)
  {
    var N := |x|;
    margins := new real[N, C]((_, _) => 0.0);
    forall n, c | 0 <= n < N && 0 <= c < C {
      margins[n, c] := Rect0(x[n][c] - x[n][y[n]] + 1.0);
    }
    ZeroCorrect(margins, y);
    var m, want := Snapshot2(margins), Margins(x, y, C);
    forall n | 0 <= n < N
      ensures m[n] == want[n]
    {
    }
  }

  /** Line 831: `margins[np.arange(N), y] = 0`, one cell per row. */
  method ZeroCorrect(margins: array2<real>, y: seq<int>)
    requires |y| == margins.Length0 && forall n :: 0 <= n < |y| ==> 0 <= y[n] < margins.Length1
    modifies margins
    ensures forall n, c :: 0 <= n < margins.Length0 && 0 <= c < margins.Length1 ==>
              margins[n, c] == if c == y[n] then 0.0 else old(margins[n, c])
  {
    forall n | 0 <= n < |y| {
      margins[n, y[n]] := 0.0;
    }
  }

  /** Lines 833-837, on the margins m: dx is 1 where the margin is positive,
      less the row's count of positive margins at the correct class, all over N. */
  method MarginGradient(m: seq<seq<real>>, y: seq<int>, C: nat) returns (dx: array2<real>)
    requires |m| > 0 && Rect(m, |m|, C) && |y| == |m| && forall n :: 0 <= n < |y| ==> 0 <= y[n] < C
    ensures fresh(dx) && dx.Length0 == |m| && dx.Length1 == C
    ensures forall n, c :: 0 <= n < |m| && 0 <= c < C ==>
              dx[n, c] == ((if m[n][c] > 0.0 then 1.0 else 0.0) - (if c == y[n] then CountPositive(m[n], C) as real else 0.0)) / |m| as real
  {
    var N := |m|;
    var numPos := seq(N, n requires 0 <= n < N => CountPositive(m[n], C));
    dx := new real[N, C]((_, _) => 0.0);
    forall n, c | 0 <= n < N && 0 <= c < C && m[n][c] > 0.0 {
      dx[n, c] := 1.0;
    }
    forall n | 0 <= n < N {
      dx[n, y[n]] := dx[n, y[n]] - numPos[n] as real;
    }
    var Nr := N as real;
    forall n, c | 0 <= n < N && 0 <= c < C {
      dx[n, c] := dx[n, c] / Nr;
    }
  }

  /** `svm_loss`: the loss is the sum of the margins over N, and dx is the
      gradient of Grad. */
  method SvmLoss(x: seq<seq<real>>, y: seq<int>) returns (loss: real, dx: array2<real>)
    requires |x| > 0 && Scores(x, y, |x[0]|)
    ensures fresh(dx) && dx.Length0 == |x| && dx.Length1 == |x[0]|
    ensures loss == Loss(x, y, |x[0]|)
    ensures forall n, c :: 0 <= n < dx.Length0 && 0 <= c < dx.Length1 ==> dx[n, c] == Grad(x, y, |x[0]|, n, c)
  {
    var N, C := |x|, |x[0]|;
    var margins := HingeMargins(x, y, C);
    var m := Snapshot2(margins);
    loss := GridSum(m, C, N, 0) / N as real;
    dx := MarginGradient(m, y, C);
  }

  /** Every margin is non-negative, so the loss is non-negative. */
  lemma SvmLossNonNegative(x: seq<seq<real>>, y: seq<int>, C: nat)
    requires Scores(x, y, C) && |x| > 0
    ensures Loss(x, y, C) >= 0.0
  {
    GridSumNonNegative(Margins(x, y, C), C, |x|, 0);
  }

  /** Adding two fractions over the same positive denominator. */
  lemma DivAdd(a: real, b: real, z: real)
    requires z > 0.0
    ensures a / z + b / z == (a + b) / z
  {
  }

  /** Prefix k of row n of the gradient: the positive classes among the first
      k, less num_pos once the correct class is among them, over N. */
  lemma {:induction false} GradRowPrefix(x: seq<seq<real>>, y: seq<int>, C: nat, n: nat, k: nat)
    requires Scores(x, y, C) && n < |x| && k <= C
    ensures RowSum(Grads(x, y, C)[n], k)
            == (CountPositive(Margins(x, y, C)[n], k) as real - (if y[n] < k then NumPos(x, y, C, n) as real else 0.0)) / |x| as real
  {
    var Nr := |x| as real;
    if k > 0 {
      GradRowPrefix(x, y, C, n, k - 1);
      var row, mrow := Grads(x, y, C)[n], Margins(x, y, C)[n];
      var p := if mrow[k - 1] > 0.0 then 1.0 else 0.0;
      var q := if k - 1 == y[n] then NumPos(x, y, C, n) as real else 0.0;
      var Q' := if y[n] < k - 1 then NumPos(x, y, C, n) as real else 0.0;
      assert row[k - 1] == (p - q) / Nr;
      DivAdd(CountPositive(mrow, k - 1) as real - Q', p - q, Nr);
    }
  }

  /** Each row of dx sums to zero: the +1/N of the positive classes is
      balanced by the -num_pos/N of the correct class, which itself never has
      a positive margin. */
  lemma SvmGradRowsSumToZero(x: seq<seq<real>>, y: seq<int>, C: nat, n: nat)
    requires Scores(x, y, C) && n < |x|
    ensures RowSum(Grads(x, y, C)[n], C) == 0.0
  {
    GradRowPrefix(x, y, C, n, C);
  }
}
