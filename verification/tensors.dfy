/**
  Batches of samples as plain sequences of reals.

  A batch is what the solver iterates on: B samples, each one flattened to a
  vector of reals. The tensor library's broadcasting, devices and floating
  point are not modelled; a batch is a value, and two batches can be combined
  only when they have the same shape.
 */
module Tensors {

  /** One sample of the batch, flattened over all its feature dimensions. */
  type Sample = seq<real>

  /** A batch of B samples; index 0 is the batch dimension. */
  type Batch = seq<Sample>

  /** Same batch size, and every sample has the same number of entries. */
  predicate SameShape(a: Batch, b: Batch) {
    && |a| == |b|
    && forall i :: 0 <= i < |a| ==> |a[i]| == |b[i]|
  }

  /** The squared Euclidean distance between two samples of equal length. */
  function SqDist(a: Sample, b: Sample): (r: real)
    requires |a| == |b|
    ensures r >= 0.0
  {
    if |a| == 0 then 0.0
    else (a[0] - b[0]) * (a[0] - b[0]) + SqDist(a[1..], b[1..])
  }

  /** A sample is at distance zero from itself. */
  lemma {:induction false} SqDistSelf(a: Sample)
    ensures SqDist(a, a) == 0.0
  {
    if |a| > 0 {
      SqDistSelf(a[1..]);
    }
  }

  /** Only identical samples are at distance zero. */
  lemma {:induction false} SqDistZeroIsEqual(a: Sample, b: Sample)
    requires |a| == |b|
    ensures SqDist(a, b) == 0.0 <==> a == b
  {
    if |a| == 0 {
    } else if a == b {
      SqDistSelf(a);
    } else if a[0] == b[0] {
      SqDistZeroIsEqual(a[1..], b[1..]);
    } else {
      SquareMonotone(0.0, if a[0] < b[0] then b[0] - a[0] else a[0] - b[0]);
    }
  }

  /**
    The "still not converged" test of one sample: the Euclidean norm of the
    difference between the new and the previous value is strictly greater
    than the tolerance. The norm is never negative, so a negative tolerance is
    exceeded by every pair; otherwise both sides are non-negative and the
    comparison is the same as comparing squares, which keeps square roots out
    of the model (MovedIsNormTest below).
   */
  predicate Moved(next: Sample, prev: Sample, tol: real)
    requires |next| == |prev|
  {
    tol < 0.0 || SqDist(next, prev) > tol * tol
  }

  /** Moved agrees with comparing the actual norm `n` against the tolerance. */
  lemma MovedIsNormTest(next: Sample, prev: Sample, tol: real, n: real)
    requires |next| == |prev|
    requires n >= 0.0 && n * n == SqDist(next, prev)
    ensures Moved(next, prev, tol) <==> n > tol
  {
    if tol >= 0.0 {
      if n > tol {
        SquareMonotone(tol, n);
      } else if n < tol {
        SquareMonotone(n, tol);
      }
    }
  }

  /** Squaring is strictly increasing on the non-negative reals. */
  lemma SquareMonotone(x: real, y: real)
    requires 0.0 <= x < y
    ensures x * x < y * y
  {
    var lo, mid, hi := x * x, x * y, y * y;
    assert lo <= mid;
    assert mid < hi;
  }

  /** Under tolerance 0 a sample counts as moving exactly when the step changed it. */
  lemma {:induction false} ZeroTolMovedIffChanged(next: Sample, prev: Sample)
    requires |next| == |prev|
    ensures Moved(next, prev, 0.0) <==> next != prev
  {
    SqDistZeroIsEqual(next, prev);
  }

  /** A sample that did not change is never "still moving" under a tolerance >= 0. */
  lemma UnchangedSampleStops(a: Sample, tol: real)
    requires tol >= 0.0
    ensures !Moved(a, a, tol)
  {
    SqDistSelf(a);
  }

  /** The convex combination `alpha * a + (1 - alpha) * b`, entry by entry. */
  function Mix(alpha: real, a: Batch, b: Batch): (r: Batch)
    requires SameShape(a, b)
    ensures SameShape(r, a)
    ensures forall i, j :: 0 <= i < |a| && 0 <= j < |a[i]| ==>
              r[i][j] == alpha * a[i][j] + (1.0 - alpha) * b[i][j]
  {
    seq(|a|, i requires 0 <= i < |a| =>
      seq(|a[i]|, j requires 0 <= j < |a[i]| =>
        alpha * a[i][j] + (1.0 - alpha) * b[i][j]))
  }

  /** Combining a batch with itself gives the batch back, whatever the weight. */
  lemma MixOfEqual(alpha: real, a: Batch)
    ensures Mix(alpha, a, a) == a
  {
    var r := Mix(alpha, a, a);
    forall i | 0 <= i < |a|
      ensures r[i] == a[i]
    {
      forall j | 0 <= j < |a[i]|
        ensures r[i][j] == a[i][j]
      {
        calc {
          r[i][j];
          alpha * a[i][j] + (1.0 - alpha) * a[i][j];
          a[i][j];
        }
      }
    }
  }
}
