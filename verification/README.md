# KM fixed-point solver, modelled in Dafny

This project models `KM_alg`, the Krasnoselskii–Mann (KM) solver of a
fixed-point network library. Given operators `S(u)` and `T(u, d)` and a weight
`alpha`, the solver looks for a batch `u` with
`u = alpha * S(u) + (1 - alpha) * T(u, d)`. It iterates the right-hand side
over the whole batch. It keeps one "not converged" flag per sample. It stops
when every flag is false or when the iteration count `depth` reaches
`max_depth`.

Files and modules:

- `tensors.dfy`, module `Tensors`. A batch is a `seq<seq<real>>`, one flattened
  vector per sample. This module holds shapes, the squared Euclidean distance,
  the per-sample test "norm of the step > tolerance" (`Moved`), and the convex
  combination `Mix`.
- `km.dfy`, module `KMAlg`. It holds the solver configuration `KM`, the
  constructor `Init` with the source's defaults (`max_depth = 500`,
  `eps = 1.0e-5`), and the setters and accessors `AssignOps` and `ApplyT`. It
  also holds the tolerance choice `EffectiveTol`, one KM update `Step`, and the
  KM sequence `Trajectory`. The per-sample recheck `Recheck` and the solver
  loop `Solve` are methods. `Solves`, `FailsAt` and `SolveSpec` give the
  specification of the solve's outcome in terms of the trajectory.
- `km_properties.dfy`, module `KMProperties`. It holds lemmas across
  iterations and calls: the mask is monotone, what a cleared flag means,
  determinism, the fixed-point case, a concrete solve, proved, in which a
  converged sample is still updated, and the setters.

Modelling choices:

- `S`, `T` and the conditioning data are parameters. `S: Batch -> Batch` and
  `T: (Batch, D) -> Batch`, for any type `D`. Being Dafny function values, the
  operators are pure and deterministic.
- The test `torch.norm(u[i] - u_prev[i]) > eps` is modelled exactly, without
  square roots. It is `tol < 0 || SqDist > tol * tol`. `Tensors.MovedIsNormTest`
  proves this agrees with comparing any non-negative `n` with
  `n * n == SqDist` against `tol`.
- `Step` succeeds only when both `S(u)` and `T(u, d)` have the shape of `u`.
  Any other shape ends the solve with `Failure(ShapeMismatch)`. Shapes are
  compared on flattened samples, so this differs from the source in both
  directions: some outputs the source broadcasts are rejected, and some
  outputs on which KM.py:64 or KM.py:65 raises are accepted. Both kinds are
  listed under "Left out".
- The source returns `(u, depth)` and prints a message when the budget is
  spent. The model returns `Solution(u, depth, notConverged, exhausted)`. The
  mask is returned so that its properties can be stated. `exhausted` stands in
  for the printed diagnostic.
- `depth` is a float counter in the source. Here it is a `nat`, and
  `max_depth` is an `int`. A `max_depth` of zero or less is accepted, as in the
  source. The loop then does not run, and the diagnostic fires.
- The diagnostic fires whenever the final `depth >= max_depth`
  (KM.py:68-69), also when the last iteration cleared every flag.
  `KMProperties.FixedPointReturnsAfterOneIteration` shows the case: with
  `max_depth == 1`, every flag is false and `exhausted` still holds.
- An empty batch (shape [0, n]) is accepted. The mask is empty, the loop does
  not run and `depth` stays 0.

## Model

| member | source | states |
|---|---|---|
| KMAlg.Init | KM.py:22-29 | the configuration holds exactly the given operators, weight, budget, tolerance and device, with no validation |
| KMProperties.InitDefaults | KM.py:22-23 | when not given, `max_depth` is 500 and the configured tolerance is 1.0e-5 |
| KMAlg.AssignOps | KM.py:79-83 | the new configuration has the given `S` and `T`; `alpha`, `max_depth`, `eps_tol` and the device are unchanged |
| KMProperties.AssignSameOpsIsIdentity | KM.py:79-83 | reassigning a solver's own operators leaves it equal to itself, so repeating an assignment is idempotent |
| KMAlg.ApplyT | KM.py:72-77 | `apply_T(u, d)` is the value `T(u, d)`; detaching changes no value |
| KMProperties.ApplyTUsesAssignedT | KM.py:77-83 | after `assign_ops(S, T)`, `apply_T` applies the newly assigned `T` |
| KMAlg.EffectiveTol | KM.py:53 | the tolerance is the argument when it is positive and the configured one otherwise; it is positive exactly when one of those is |
| KMProperties.DefaultEpsSelectsConfiguredTol | KM.py:41-53 | the default argument -1 selects the configured tolerance |
| KMAlg.Budget | KM.py:62 | the guard `depth < max_depth` allows exactly `max(max_depth, 0)` iterations |
| Tensors.Mix | KM.py:64 | the update is the entry-wise convex combination `alpha * a + (1 - alpha) * b`, with the shape kept |
| KMAlg.Step | KM.py:64 | one update replaces every sample, whatever its flag, by `alpha * S(u) + (1 - alpha) * T(u, d)`; it fails exactly when an operator's output differs in shape from `u` |
| KMAlg.Trajectory | KM.py:62-67 | the iterates form the KM sequence `u_0 = u0`, `u_{j+1} = Step(u_j)`, all of one shape and independent of the mask |
| KMAlg.InitialMask | KM.py:59-60 | the mask starts all true, one flag per sample |
| KMAlg.Recheck | KM.py:65-66 | a false flag stays false and is not recomputed; a true flag becomes "norm of the step > tolerance" |
| Tensors.MovedIsNormTest | KM.py:65 | the squared-distance test agrees with comparing the Euclidean norm of the step against the tolerance, negative tolerances included |
| Tensors.SqDistZeroIsEqual | KM.py:65 | a step has distance zero exactly when the sample did not change |
| Tensors.ZeroTolMovedIffChanged | KM.py:65 | under tolerance 0 a sample stays flagged exactly when the step changed it, so its flag clears exactly when the update left it unchanged |
| KMAlg.Solve | KM.py:41-70 | the result is the trajectory after `depth` iterations. Each flag is true exactly when every step so far moved its sample by more than the tolerance. `depth <= max(max_depth, 0)`. The loop exits only when no flag is true or the budget is spent, and never earlier. `exhausted` holds exactly when `depth >= max_depth`. A failure happens only in an iteration the loop would have run |
| KMProperties.TrajectoryPrefix | KM.py:62-67 | fewer iterations give a prefix of the same iterate sequence |
| KMProperties.StillMovingOnPrefix | KM.py:65-66 | a flag after k iterations depends only on the first k steps |
| KMProperties.FlagStaysFalse | KM.py:65-66 | once a sample's flag is false it stays false in every later iteration |
| KMProperties.FlagStaysFalseContra | KM.py:65-66 | a flag that is true after k iterations was true after every earlier one |
| KMProperties.FlagClearedBySmallStep | KM.py:65 | a false flag was cleared by one iteration in which the flag was still true and the step did not exceed the tolerance |
| KMProperties.ConvergedSampleHadSmallStep | KM.py:62-67 | a sample the solve reports converged had a step of squared length at most `tol * tol` in the iteration that marked it; this needs `tol >= 0` |
| KMProperties.NegativeTolRunsFullBudget | KM.py:53-67 | with a negative tolerance no flag ever clears, so a non-empty batch runs the whole budget and the diagnostic fires |
| KMProperties.SolvedDepthIsMinimal | KM.py:62-67 | no successful outcome stops earlier than another, so any two successful outcomes have the same depth |
| KMProperties.FailureExcludesSolution | KM.py:62-67 | a solve whose update fails inside the budget has no successful outcome |
| KMProperties.FailuresAgree | KM.py:62-67 | two failing outcomes fail in the same iteration with the same error |
| KMProperties.SolveIsDeterministic | KM.py:53-70 | the outcome of a solve is determined by its inputs |
| Tensors.MixOfEqual | KM.py:64 | combining a batch with itself returns it, for every `alpha` |
| KMProperties.CommonFixedPointIsKMFixedPoint | KM.py:9-10 | a common fixed point of `S` and `T(., d)` is a fixed point of the KM update |
| KMProperties.FixedPointTrajectoryIsConstant | KM.py:62-67 | from a fixed point of the update, every iterate equals the start |
| KMProperties.FixedPointReturnsAfterOneIteration | KM.py:62-69 | from a fixed point, with tolerance >= 0, a non-empty batch and `max_depth >= 1`, the solve returns after exactly one iteration. `u` is unchanged and every flag is false. The diagnostic fires exactly when `max_depth == 1` |
| KMProperties.ConvergedSampleIsStillUpdated | KM.py:62-67 | in a concrete two-sample run, sample 0 is marked converged in iteration 1 and is still moved from 0 to 1 in iteration 2; the result is `depth == 2`, mask `[false, true]` |

## Left out

- Tensor mechanics are modelled as plain sequence values: device placement (`.to(device)`), `.clone()`, and the numpy mask array and its reshaping. The `Device` is carried but never interpreted.
- KMAlg.Step: fails with `ShapeMismatch` whenever `S(u)` or `T(u, d)` differs in shape from `u`, which differs from the source in both directions. Broadcasting is not modelled. When both outputs are [B, m] with m different from n, KM.py:64 succeeds and KM.py:65 raises, or broadcasts and continues when m or n is 1. When both outputs are [B', n] with B' > B, nothing raises and the loop continues on the larger batch. Conversely, samples are flattened, so an operator output with the same number of entries per sample but a different feature shape (for example [B, 3, 2] for a [B, 2, 3] input) is accepted by the model, while KM.py:64 or KM.py:65 raises.
- KMAlg.Solve: a sample is a flattened vector, so the model cannot tell a batch of shape [B, 0] from one of shape [B, 3, 0]. The source raises IndexError at KM.py:56 (`u[:, 0]`) for [B, 0] and for a one-dimensional `u`. The model accepts `[[]]` and solves it like any other batch.
- KMProperties.SolveIsDeterministic and KMProperties.AssignSameOpsIsIdentity: these hold because `S` and `T` are pure functions here. In the source, `T` is a network module that can be stateful or random in training mode, and the model does not cover that.
- `torch.no_grad()` and `u.detach()` only affect gradient recording, which has no value semantics. `ApplyT` is a plain application of `T`.
- Floating-point arithmetic is not modelled. Reals are exact, and the norm comparison is stated on squared distances.
- `depth` as a float is not modelled, and neither is a non-integer `max_depth`. A positive non-integer `max_depth` lets the float guard run ceil(max_depth) iterations.
- The diagnostic `print` is replaced by the returned `exhausted` flag.
- `__repr__` is string formatting only.
- The training scripts train_MNIST_Jacobian_Based.py and train_CIFAR10.py are left out. They set hyperparameters and call network, data-loading and training code that is not part of this model.
- Convergence-rate and contraction claims are left out. They depend on the internals of `T`, which are parameters here.
- Validation of `alpha`, `max_depth` or `eps` is left out because the source performs none. Any value is accepted.
