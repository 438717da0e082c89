/**
  The Krasnoselskii-Mann (KM) fixed-point solver of KM.py.

  Given operators S(u) and T(u, d), the solver looks for u with
      u = alpha * S(u) + (1 - alpha) * T(u, d)
  by iterating that right-hand side over a whole batch. It keeps one
  "not converged" flag per sample and stops once every flag is false or once
  the iteration count reaches the configured maximum depth.

  The operators are function values over batches; the conditioning input `d`
  is of any type `D` the caller chooses. An update fails when an operator's
  output does not have the shape of its input; the model has no other failure.
 */
module KMAlg {
  import opened Tensors

  /** The failures a solve can end with. */
  datatype KMError = ShapeMismatch

  datatype Result<+R> = Success(value: R) | Failure(error: KMError)

  /** The placement of tensors; only carried along, never interpreted. */
  datatype Device = Device(name: string)

  /** The solver's configuration: the two operators and the iteration parameters. */
  datatype KM<!D> = KM(
    S: Batch -> Batch,
    T: (Batch, D) -> Batch,
    alpha: real,
    maxDepth: int,
    epsTol: real,
    device: Device)

  /** What a solve returns: the last iterate, the shared iteration count,
      the per-sample "not converged" mask and the budget diagnostic. */
  datatype Solution = Solution(
    u: Batch,
    depth: nat,
    notConverged: seq<bool>,
    exhausted: bool)

  /** Construction; `maxDepth` defaults to 500 and `epsTol` to 1.0e-5. Nothing is validated. */
  function Init<D>(S: Batch -> Batch, T: (Batch, D) -> Batch, alpha: real, device: Device,
                   maxDepth: int := 500, epsTol: real := 0.00001): (km: KM<D>)
    ensures km.S == S && km.T == T && km.device == device
    ensures km.alpha == alpha && km.maxDepth == maxDepth && km.epsTol == epsTol
  {
    KM(S, T, alpha, maxDepth, epsTol, device)
  }

  /** Replaces the operators; the weight, budget, tolerance and device are kept. */
  function AssignOps<D>(km: KM<D>, S: Batch -> Batch, T: (Batch, D) -> Batch): (km': KM<D>)
    ensures km'.S == S && km'.T == T
    ensures km'.alpha == km.alpha && km'.maxDepth == km.maxDepth
    ensures km'.epsTol == km.epsTol && km'.device == km.device
  {
    km.(S := S, T := T)
  }

  /** One application of T, used to re-enter gradient tracking at a fixed point.
      Detaching from the gradient graph has no effect on values. */
  function ApplyT<D>(km: KM<D>, u: Batch, d: D): (r: Batch)
    ensures r == km.T(u, d)
  {
    km.T(u, d)
  }

  /** The tolerance a solve uses: the argument when it is positive, else the configured one. */
  function EffectiveTol(eps: real, epsTol: real): (tol: real)
    ensures eps > 0.0 ==> tol == eps
    ensures eps <= 0.0 ==> tol == epsTol
    ensures tol > 0.0 <==> eps > 0.0 || epsTol > 0.0
  {
    if eps > 0.0 then eps else epsTol
  }

  /** The number of iterations the loop guard `depth < maxDepth` allows. */
  function Budget(maxDepth: int): (b: nat)
    ensures b >= maxDepth && (b == 0 || b == maxDepth)
  {
    if maxDepth > 0 then maxDepth else 0
  }

  /**
    One KM update of the whole batch, converged samples included:
    `alpha * S(u) + (1 - alpha) * T(u, d)`. Fails when either operator does
    not return a batch of the shape of `u`.
   */
  function Step<D>(km: KM<D>, u: Batch, d: D): (r: Result<Batch>)
    ensures r.Success? <==> SameShape(km.S(u), u) && SameShape(km.T(u, d), u)
    ensures r.Success? ==> SameShape(r.value, u)
    ensures r.Success? ==> forall i, j :: 0 <= i < |u| && 0 <= j < |u[i]| ==>
              r.value[i][j] == km.alpha * km.S(u)[i][j] + (1.0 - km.alpha) * km.T(u, d)[i][j]
  {
    var s := km.S(u);
    var t := km.T(u, d);
    if SameShape(s, u) && SameShape(t, u) then Success(Mix(km.alpha, s, t))
    else Failure(ShapeMismatch)
  }

  /**
    The KM sequence u_0 = u0, u_{j+1} = Step(u_j), as the list [u_0, ..., u_k];
    it fails when one of the first k steps fails. The mask plays no part in it.
   */
  function Trajectory<D>(km: KM<D>, u0: Batch, d: D, k: nat): (r: Result<seq<Batch>>)
    ensures r.Success? ==> |r.value| == k + 1 && r.value[0] == u0
    ensures r.Success? ==> Shaped(r.value)
    ensures r.Success? ==> forall j :: 0 <= j < k ==> Step(km, r.value[j], d) == Success(r.value[j + 1])
    decreases k
  {
    if k == 0 then Success([u0])
    else
      match Trajectory(km, u0, d, k - 1)
      case Failure(e) => Failure(e)
      case Success(tr) =>
        match Step(km, tr[k - 1], d)
        case Failure(e) => Failure(e)
        case Success(v) => Success(tr + [v])
  }

  /** Every batch of the list has the shape of the first one. */
  ghost predicate Shaped(tr: seq<Batch>) {
    && |tr| > 0
    && forall j :: 0 <= j < |tr| ==> SameShape(tr[j], tr[0])
  }

  /**
    The meaning of sample i's flag after k iterations of the trajectory: it is
    still "not converged" exactly when each of the first k steps moved it by
    more than the tolerance.
   */
  ghost predicate StillMoving(tr: seq<Batch>, i: nat, k: nat, tol: real)
    requires Shaped(tr) && k < |tr| && i < |tr[0]|
  {
    forall j :: 0 <= j < k ==> Moved(tr[j + 1][i], tr[j][i], tol)
  }

  /** Some sample is still flagged "not converged" after k iterations. */
  ghost predicate AnyStillMoving(tr: seq<Batch>, k: nat, tol: real)
    requires Shaped(tr) && k < |tr|
  {
    exists i :: 0 <= i < |tr[0]| && StillMoving(tr, i, k, tol)
  }

  /** `s` is what a solve from `u0` with tolerance `tol` returns. */
  ghost predicate Solves<D>(km: KM<D>, u0: Batch, d: D, tol: real, s: Solution) {
    && s.depth <= Budget(km.maxDepth)
    && Trajectory(km, u0, d, s.depth).Success?
    && var tr := Trajectory(km, u0, d, s.depth).value;
    // the result is the last iterate, every sample updated at every step
    && s.u == tr[s.depth]
    // the mask has one flag per sample, true exactly for samples never seen to settle
    && |s.notConverged| == |u0|
    && (forall i :: 0 <= i < |u0| ==> (s.notConverged[i] <==> StillMoving(tr, i, s.depth, tol)))
    // the loop exits only when every flag is false or the budget is spent ...
    && (s.depth == Budget(km.maxDepth) || forall i :: 0 <= i < |u0| ==> !s.notConverged[i])
    // ... and not earlier
    && (forall k :: 0 <= k < s.depth ==> AnyStillMoving(tr, k, tol))
    // the diagnostic fires exactly when the final depth reaches maxDepth
    && (s.exhausted <==> s.depth >= km.maxDepth)
  }

  /** A solve from `u0` fails with `e` in iteration k + 1. */
  ghost predicate FailsAt<D>(km: KM<D>, u0: Batch, d: D, tol: real, k: nat, e: KMError) {
    && k < Budget(km.maxDepth)
    && Trajectory(km, u0, d, k).Success?
    && var tr := Trajectory(km, u0, d, k).value;
    && AnyStillMoving(tr, k, tol)
    && Step(km, tr[k], d) == Failure(e)
  }

  /** The outcome of a solve, success or failure. */
  ghost predicate SolveSpec<D>(km: KM<D>, u0: Batch, d: D, tol: real, r: Result<Solution>) {
    match r
    case Success(s) => Solves(km, u0, d, tol, s)
    case Failure(e) => exists k :: FailsAt(km, u0, d, tol, k, e)
  }

  /** The mask a solve starts from: one true flag per sample. */
  function InitialMask(b: nat): (nc: seq<bool>)
    ensures |nc| == b
    ensures forall i :: 0 <= i < b ==> nc[i]
  {
    seq(b, _ => true)
  }

  /**
    Re-evaluates the flags that are still true against the latest step; the
    flags that are already false are not looked at again.
   */
  method Recheck(nc: seq<bool>, u: Batch, prev: Batch, tol: real) returns (nc': seq<bool>)
    requires |nc| == |u| && SameShape(u, prev)
    ensures |nc'| == |nc|
    ensures forall i :: 0 <= i < |nc| && !nc[i] ==> !nc'[i]
    ensures forall i :: 0 <= i < |nc| && nc[i] ==> (nc'[i] <==> Moved(u[i], prev[i], tol))
  {
    nc' := nc;
    var i := 0;
    while i < |nc|
      invariant 0 <= i <= |nc| && |nc'| == |nc|
      invariant forall j :: 0 <= j < i ==> (nc'[j] <==> nc[j] && Moved(u[j], prev[j], tol))
      invariant forall j :: i <= j < |nc| ==> nc'[j] == nc[j]
    {
      if nc[i] {
        nc' := nc'[i := Moved(u[i], prev[i], tol)];
      }
      i := i + 1;
    }
  }

  /** Appending a step leaves the meaning of the earlier flags unchanged. */
  lemma StillMovingExtend(tr: seq<Batch>, v: Batch, tol: real)
    requires Shaped(tr) && SameShape(v, tr[0])
    ensures Shaped(tr + [v])
    ensures forall i, k :: 0 <= i < |tr[0]| && 0 <= k < |tr| ==>
              (StillMoving(tr + [v], i, k, tol) <==> StillMoving(tr, i, k, tol))
    ensures forall k :: 0 <= k < |tr| ==> (AnyStillMoving(tr + [v], k, tol) <==> AnyStillMoving(tr, k, tol))
  {
    var tr' := tr + [v];
    assert forall j :: 0 <= j < |tr| ==> tr'[j] == tr[j];
  }

  /**
    One iteration of the solve loop: after a successful step and a recheck,
    the trajectory has grown by the new iterate and the mask describes it.
   */
  lemma MaskTracksTrajectory<D>(km: KM<D>, u0: Batch, d: D, tol: real, depth: nat,
                                tr: seq<Batch>, v: Batch, nc: seq<bool>, nc': seq<bool>)
    requires Trajectory(km, u0, d, depth) == Success(tr)
    requires Step(km, tr[depth], d) == Success(v)
    requires |nc| == |u0| && |nc'| == |u0|
    requires forall i :: 0 <= i < |u0| ==> (nc[i] <==> StillMoving(tr, i, depth, tol))
    requires forall i :: 0 <= i < |u0| ==> (nc'[i] <==> nc[i] && Moved(v[i], tr[depth][i], tol))
    ensures Trajectory(km, u0, d, depth + 1) == Success(tr + [v])
    ensures forall i :: 0 <= i < |u0| ==> (nc'[i] <==> StillMoving(tr + [v], i, depth + 1, tol))
    ensures forall k :: 0 <= k <= depth ==> (AnyStillMoving(tr + [v], k, tol) <==> AnyStillMoving(tr, k, tol))
  {
    StillMovingExtend(tr, v, tol);
    var tr' := tr + [v];
    forall i | 0 <= i < |u0|
      ensures nc'[i] <==> StillMoving(tr', i, depth + 1, tol)
    {
      assert tr'[depth + 1] == v && tr'[depth] == tr[depth];
      assert StillMoving(tr', i, depth + 1, tol) <==>
             StillMoving(tr', i, depth, tol) && Moved(tr'[depth + 1][i], tr'[depth][i], tol);
    }
  }

  /**
    Runs the KM iteration from `u0` with the tolerance `eps` (the configured
    one when `eps` is not positive, as with the default -1).
   */
  method Solve<D>(km: KM<D>, u0: Batch, d: D, eps: real := -1.0) returns (r: Result<Solution>)
    ensures SolveSpec(km, u0, d, EffectiveTol(eps, km.epsTol), r)
  {
    var tol := EffectiveTol(eps, km.epsTol);
    var u := u0;
    var nc := InitialMask(|u0|);
    var depth: nat := 0;
    ghost var tr := [u0];
    while true in nc && depth < km.maxDepth
      invariant depth <= Budget(km.maxDepth)
      invariant Trajectory(km, u0, d, depth) == Success(tr)
      invariant u == tr[depth]
      invariant |nc| == |u0|
      invariant forall i :: 0 <= i < |u0| ==> (nc[i] <==> StillMoving(tr, i, depth, tol))
      invariant forall k :: 0 <= k < depth ==> AnyStillMoving(tr, k, tol)
      decreases Budget(km.maxDepth) - depth
    {
      assert AnyStillMoving(tr, depth, tol) by {
        var i :| 0 <= i < |nc| && nc[i];
      }
      var prev := u;
      var next := Step(km, u, d);
      if next.Failure? {
        assert FailsAt(km, u0, d, tol, depth, next.error);
        return Failure(next.error);
      }
      u := next.value;
      var nc' := Recheck(nc, u, prev, tol);
      MaskTracksTrajectory(km, u0, d, tol, depth, tr, u, nc, nc');
      nc, tr, depth := nc', tr + [u], depth + 1;
    }
    r := Success(Solution(u, depth, nc, depth >= km.maxDepth));
  }
}
