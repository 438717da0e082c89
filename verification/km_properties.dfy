/**
  Properties of the KM solver that relate several calls or several iterations:
  the trajectory's prefixes, the monotone mask, what a converged flag means,
  the fixed-point case, determinism of a solve and the operator setters.
 */
module KMProperties {
  import opened Tensors
  import opened KMAlg

  /** Running fewer iterations gives a prefix of the same KM sequence. */
  lemma {:induction false} TrajectoryPrefix<D>(km: KM<D>, u0: Batch, d: D, j: nat, k: nat)
    requires j <= k && Trajectory(km, u0, d, k).Success?
    ensures Trajectory(km, u0, d, j) == Success(Trajectory(km, u0, d, k).value[..j + 1])
    decreases k
  {
    var tr := Trajectory(km, u0, d, k).value;
    if j < k {
      var tr' := Trajectory(km, u0, d, k - 1).value;
      assert tr == tr' + [tr[k]];
      TrajectoryPrefix(km, u0, d, j, k - 1);
      assert tr'[..j + 1] == tr[..j + 1];
    } else {
      assert tr[..j + 1] == tr;
    }
  }

  /** A flag's meaning after k iterations depends only on the first k steps. */
  lemma StillMovingOnPrefix(tr: seq<Batch>, m: nat, k: nat, tol: real)
    requires Shaped(tr) && k < m <= |tr|
    ensures Shaped(tr[..m])
    ensures forall i :: 0 <= i < |tr[0]| ==> (StillMoving(tr[..m], i, k, tol) <==> StillMoving(tr, i, k, tol))
    ensures AnyStillMoving(tr[..m], k, tol) <==> AnyStillMoving(tr, k, tol)
  {
  }

  /** The mask is monotone: once a flag is false it stays false in every later iteration. */
  lemma FlagStaysFalse(tr: seq<Batch>, i: nat, j: nat, k: nat, tol: real)
    requires Shaped(tr) && j <= k < |tr| && i < |tr[0]|
    requires !StillMoving(tr, i, j, tol)
    ensures !StillMoving(tr, i, k, tol)
  {
  }

  /** A false flag was set by one particular iteration: the sample was still
      flagged before it, and that iteration moved it by at most the tolerance. */
  lemma {:induction false} FlagClearedBySmallStep(tr: seq<Batch>, i: nat, k: nat, tol: real)
    requires Shaped(tr) && k < |tr| && i < |tr[0]|
    requires !StillMoving(tr, i, k, tol)
    ensures exists j :: 0 <= j < k && StillMoving(tr, i, j, tol) && !Moved(tr[j + 1][i], tr[j][i], tol)
  {
    assert k > 0;
    if StillMoving(tr, i, k - 1, tol) {
      assert !Moved(tr[k][i], tr[k - 1][i], tol);
    } else {
      FlagClearedBySmallStep(tr, i, k - 1, tol);
    }
  }

  /**
    A sample the solve reports as converged had, in the iteration that marked
    it, a step of squared length at most tol * tol (so a norm at most tol);
    and no sample is ever marked converged under a negative tolerance.
   */
  lemma ConvergedSampleHadSmallStep<D>(km: KM<D>, u0: Batch, d: D, tol: real, s: Solution, i: nat)
    requires Solves(km, u0, d, tol, s) && i < |u0| && !s.notConverged[i]
    ensures tol >= 0.0
    ensures exists j :: 0 <= j < s.depth && SettledAt(Trajectory(km, u0, d, s.depth).value, i, j, tol)
  {
    var tr := Trajectory(km, u0, d, s.depth).value;
    FlagClearedBySmallStep(tr, i, s.depth, tol);
    var j :| 0 <= j < s.depth && StillMoving(tr, i, j, tol) && !Moved(tr[j + 1][i], tr[j][i], tol);
    assert SettledAt(tr, i, j, tol);
  }

  /** Iteration j cleared sample i's flag: the flag was still true before it
      and the step moved the sample by a squared distance of at most tol * tol. */
  ghost predicate SettledAt(tr: seq<Batch>, i: nat, j: nat, tol: real)
    requires Shaped(tr) && j + 1 < |tr| && i < |tr[0]|
  {
    StillMoving(tr, i, j, tol) && SqDist(tr[j + 1][i], tr[j][i]) <= tol * tol
  }

  /** With a negative tolerance nothing converges, so a non-empty batch runs the whole budget. */
  lemma NegativeTolRunsFullBudget<D>(km: KM<D>, u0: Batch, d: D, tol: real, s: Solution)
    requires Solves(km, u0, d, tol, s) && tol < 0.0 && |u0| > 0
    ensures s.depth == Budget(km.maxDepth) && s.exhausted
    ensures forall i :: 0 <= i < |u0| ==> s.notConverged[i]
  {
    assert s.notConverged[0];
  }

  /** Solve's outcome is determined by its inputs: two outcomes that both meet the spec are equal. */
  lemma SolveIsDeterministic<D>(km: KM<D>, u0: Batch, d: D, tol: real, r1: Result<Solution>, r2: Result<Solution>)
    requires SolveSpec(km, u0, d, tol, r1) && SolveSpec(km, u0, d, tol, r2)
    ensures r1 == r2
  {
    if r1.Success? && r2.Success? {
      SolvedDepthIsMinimal(km, u0, d, tol, r1.value, r2.value);
      SolvedDepthIsMinimal(km, u0, d, tol, r2.value, r1.value);
      assert r1.value.notConverged == r2.value.notConverged;
    } else if r1.Success? {
      var k :| FailsAt(km, u0, d, tol, k, r2.error);
      FailureExcludesSolution(km, u0, d, tol, k, r2.error, r1.value);
    } else if r2.Success? {
      var k :| FailsAt(km, u0, d, tol, k, r1.error);
      FailureExcludesSolution(km, u0, d, tol, k, r1.error, r2.value);
    }
  }

  /** No successful outcome stops earlier than another. */
  lemma SolvedDepthIsMinimal<D>(km: KM<D>, u0: Batch, d: D, tol: real, s1: Solution, s2: Solution)
    requires Solves(km, u0, d, tol, s1) && Solves(km, u0, d, tol, s2)
    ensures s1.depth <= s2.depth
  {
    if s2.depth < s1.depth {
      var tr1 := Trajectory(km, u0, d, s1.depth).value;
      TrajectoryPrefix(km, u0, d, s2.depth, s1.depth);
      StillMovingOnPrefix(tr1, s2.depth + 1, s2.depth, tol);
    }
  }

  /** A solve that fails in some iteration has no successful outcome. */
  lemma FailureExcludesSolution<D>(km: KM<D>, u0: Batch, d: D, tol: real, k: nat, e: KMError, s: Solution)
    requires FailsAt(km, u0, d, tol, k, e)
    ensures !Solves(km, u0, d, tol, s)
  {
    if Solves(km, u0, d, tol, s) {
      var trk := Trajectory(km, u0, d, k).value;
      if s.depth <= k {
        TrajectoryPrefix(km, u0, d, s.depth, k);
        StillMovingOnPrefix(trk, s.depth + 1, s.depth, tol);
        var i :| 0 <= i < |u0| && StillMoving(trk, i, k, tol);
        FlagStaysFalseContra(trk, i, s.depth, k, tol);
      } else {
        TrajectoryPrefix(km, u0, d, k + 1, s.depth);
      }
    }
  }

  /** FlagStaysFalse read backwards: a flag true at k was true at every earlier j. */
  lemma FlagStaysFalseContra(tr: seq<Batch>, i: nat, j: nat, k: nat, tol: real)
    requires Shaped(tr) && j <= k < |tr| && i < |tr[0]|
    requires StillMoving(tr, i, k, tol)
    ensures StillMoving(tr, i, j, tol)
  {
  }

  /** Two failing runs fail in the same iteration with the same error. */
  lemma FailuresAgree<D>(km: KM<D>, u0: Batch, d: D, tol: real, k1: nat, e1: KMError, k2: nat, e2: KMError)
    requires FailsAt(km, u0, d, tol, k1, e1) && FailsAt(km, u0, d, tol, k2, e2)
    ensures k1 == k2 && e1 == e2
  {
    if k1 < k2 {
      TrajectoryPrefix(km, u0, d, k1 + 1, k2);
    } else if k2 < k1 {
      TrajectoryPrefix(km, u0, d, k2 + 1, k1);
    }
  }

  /** A common fixed point of S and T(., d) is a fixed point of the KM update. */
  lemma CommonFixedPointIsKMFixedPoint<D>(km: KM<D>, u: Batch, d: D)
    requires km.S(u) == u && km.T(u, d) == u
    ensures Step(km, u, d) == Success(u)
  {
    MixOfEqual(km.alpha, u);
  }

  /** From a fixed point the KM sequence stays put. */
  lemma {:induction false} FixedPointTrajectoryIsConstant<D>(km: KM<D>, u0: Batch, d: D, k: nat)
    requires Step(km, u0, d) == Success(u0)
    ensures Trajectory(km, u0, d, k).Success?
    ensures forall j :: 0 <= j <= k ==> Trajectory(km, u0, d, k).value[j] == u0
  {
    if k > 0 {
      FixedPointTrajectoryIsConstant(km, u0, d, k - 1);
    }
  }

  /**
    Started at a fixed point of the KM update, with a tolerance >= 0, a
    non-empty batch and a budget of at least one iteration, a solve returns
    after exactly one iteration with the batch unchanged and every sample
    converged; the budget diagnostic still fires when that one iteration
    was the whole budget.
   */
  lemma FixedPointReturnsAfterOneIteration<D>(km: KM<D>, u0: Batch, d: D, tol: real, r: Result<Solution>)
    requires Step(km, u0, d) == Success(u0)
    requires tol >= 0.0 && |u0| > 0 && km.maxDepth >= 1
    requires SolveSpec(km, u0, d, tol, r)
    ensures r.Success?
    ensures r.value.depth == 1 && r.value.u == u0
    ensures forall i :: 0 <= i < |u0| ==> !r.value.notConverged[i]
    ensures r.value.exhausted <==> km.maxDepth == 1
  {
    match r
    case Failure(e) =>
      var k :| FailsAt(km, u0, d, tol, k, e);
      FixedPointTrajectoryIsConstant(km, u0, d, k);
    case Success(s) =>
      FixedPointTrajectoryIsConstant(km, u0, d, s.depth);
      var tr := Trajectory(km, u0, d, s.depth).value;
      if s.depth == 0 {
        assert StillMoving(tr, 0, 0, tol);
      } else if s.depth >= 2 {
        assert AnyStillMoving(tr, 1, tol);
        var i :| 0 <= i < |u0| && StillMoving(tr, i, 1, tol);
        assert Moved(tr[1][i], tr[0][i], tol);
        UnchangedSampleStops(u0[i], tol);
      } else {
        forall i | 0 <= i < |u0|
          ensures !s.notConverged[i]
        {
          assert !Moved(tr[1][i], tr[0][i], tol) by {
            UnchangedSampleStops(u0[i], tol);
          }
        }
      }
  }

  /**
    The operator of a two-sample, one-feature example: sample 1 gains 1 at
    every step, and sample 0 gains 1 only once sample 1 has reached 1.
    Any other shape is returned unchanged.
   */
  function Staggered(u: Batch): (r: Batch)
    ensures SameShape(r, u)
  {
    if |u| == 2 && |u[0]| == 1 && |u[1]| == 1 then
      [[if u[1][0] >= 1.0 then u[0][0] + 1.0 else u[0][0]], [u[1][0] + 1.0]]
    else u
  }

  /** The example solver: S = T(., d) = Staggered, alpha = 0.5, budget 2. */
  function StaggeredKM(): (km: KM<real>)
    ensures km.alpha == 0.5 && km.maxDepth == 2
  {
    KM(Staggered, (u, d: real) => Staggered(u), 0.5, 2, 0.00001, Device("cpu"))
  }

  /** The example's KM sequence: [[0], [0]], [[0], [1]], [[1], [2]]. */
  lemma StaggeredTrajectory()
    ensures Trajectory(StaggeredKM(), [[0.0], [0.0]], 0.0, 1) == Success([[[0.0], [0.0]], [[0.0], [1.0]]])
    ensures Trajectory(StaggeredKM(), [[0.0], [0.0]], 0.0, 2)
            == Success([[[0.0], [0.0]], [[0.0], [1.0]], [[1.0], [2.0]]])
  {
    var km := StaggeredKM();
    var u0: Batch := [[0.0], [0.0]];
    var u1: Batch := [[0.0], [1.0]];
    var u2: Batch := [[1.0], [2.0]];
    assert Staggered(u0) == u1;
    assert Staggered(u1) == u2;
    MixOfEqual(0.5, u1);
    MixOfEqual(0.5, u2);
    assert Step(km, u0, 0.0) == Success(u1);
    assert Step(km, u1, 0.0) == Success(u2);
    assert Trajectory(km, u0, 0.0, 0) == Success([u0]);
    assert [u0] + [u1] == [u0, u1];
    assert Trajectory(km, u0, 0.0, 1) == Success([u0, u1]);
    assert [u0, u1] + [u2] == [u0, u1, u2];
  }

  /** The example's flags: sample 1 keeps moving by 1; sample 0 settles in
      the first iteration. */
  lemma StaggeredFlags(tr: seq<Batch>, tol: real)
    requires tr == [[[0.0], [0.0]], [[0.0], [1.0]], [[1.0], [2.0]]] && tol == 0.5
    ensures Shaped(tr)
    ensures StillMoving(tr, 0, 0, tol) && StillMoving(tr, 1, 1, tol) && StillMoving(tr, 1, 2, tol)
    ensures !StillMoving(tr, 0, 2, tol)
  {
    SqDistSelf([0.0]);
    assert !Moved(tr[1][0], tr[0][0], tol);
    assert SqDist(tr[1][1], tr[0][1]) == 1.0;
    assert SqDist(tr[2][1], tr[1][1]) == 1.0;
  }

  /**
    The mask gates only the convergence check, never the update: with
    S = T = Staggered, alpha = 0.5, tolerance 0.5 and a budget of 2 from
    [[0], [0]], sample 0 is marked converged by the first iteration (it did
    not move) and is still moved from 0 to 1 by the second one.
   */
  lemma ConvergedSampleIsStillUpdated(s: Solution)
    requires Solves(StaggeredKM(), [[0.0], [0.0]], 0.0, 0.5, s)
    ensures s.depth == 2 && s.exhausted
    ensures s.notConverged == [false, true]
    ensures s.u == [[1.0], [2.0]]
  {
    var expected := Solution([[1.0], [2.0]], 2, [false, true], true);
    StaggeredSolution();
    SolveIsDeterministic(StaggeredKM(), [[0.0], [0.0]], 0.0, 0.5, Success(s), Success(expected));
  }

  /** The example's outcome meets the solve spec. */
  lemma StaggeredSolution()
    ensures Solves(StaggeredKM(), [[0.0], [0.0]], 0.0, 0.5, Solution([[1.0], [2.0]], 2, [false, true], true))
  {
    var tr: seq<Batch> := [[[0.0], [0.0]], [[0.0], [1.0]], [[1.0], [2.0]]];
    var s := Solution([[1.0], [2.0]], 2, [false, true], true);
    StaggeredTrajectory();
    StaggeredFlags(tr, 0.5);
    assert Trajectory(StaggeredKM(), [[0.0], [0.0]], 0.0, 2).value == tr;
    assert s.u == tr[2];
    assert forall i :: 0 <= i < 2 ==> (s.notConverged[i] <==> StillMoving(tr, i, 2, 0.5));
    assert AnyStillMoving(tr, 0, 0.5) && AnyStillMoving(tr, 1, 0.5);
    assert forall k :: 0 <= k < 2 ==> AnyStillMoving(tr, k, 0.5);
  }

  /** The default tolerance argument -1 selects the configured tolerance. */
  lemma DefaultEpsSelectsConfiguredTol(epsTol: real)
    ensures EffectiveTol(-1.0, epsTol) == epsTol
  {
  }

  /** The constructor's defaults: a budget of 500 iterations and a tolerance of 1.0e-5. */
  lemma InitDefaults<D>(S: Batch -> Batch, T: (Batch, D) -> Batch, alpha: real, device: Device)
    ensures Init(S, T, alpha, device).maxDepth == 500
    ensures Init(S, T, alpha, device).epsTol == 0.00001
  {
  }

  /** Reassigning the operators a solver already has leaves it as it was,
      so repeated reassignment with the same operators is idempotent. */
  lemma AssignSameOpsIsIdentity<D>(km: KM<D>)
    ensures AssignOps(km, km.S, km.T) == km
  {
  }

  /** After reassignment, ApplyT applies the new T. */
  lemma ApplyTUsesAssignedT<D>(km: KM<D>, S: Batch -> Batch, T: (Batch, D) -> Batch, u: Batch, d: D)
    ensures ApplyT(AssignOps(km, S, T), u, d) == T(u, d)
  {
  }
}
