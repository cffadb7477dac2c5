# Wave equation solver, modelled in Dafny

The system integrates the one-dimensional linear advection equation
∂f/∂t + u ∂f/∂x = 0 on a bounded interval with finite differences. A run is
described by an `Input` record:

- velocity u, the domain bounds and the duration t_max;
- the number of points N and the Courant number CFL;
- a `Bondary` record that holds the initial condition f(x, 0) and two edge values.

From it the solver derives dx = (x_max − x_min) / N and dt = CFL dx / u. A
solve does three things:

- It samples the initial condition at x_min + i dx into the first row of a
  matrix.
- It then appends one row per pass of a `for (double t = dt; t < bound; t += dt)`
  loop, computing each new row from the last one.
- Each scheme has its own sweep:
  - explicit FTBS (forward in time, backward in space);
  - implicit FTBS;
  - Lax-Wendroff;
  - the Richtmyer two-step predictor/corrector.

Around this engine sit three other parts:

- the scheme library, a set of one-line update rules in three snapshots;
- an early prototype of the solver class in `main.cpp`;
- a norms utility: L1, L2, L∞ and Lp norms, their normalisation by length, and linear resampling of a vector to a new length.

A Python plotting script also turns the solver's output file names back into
plot titles (`parse_title`).

The Dafny project has seven modules, one per file:

| file | module | models |
|---|---|---|
| `schemes.dfy` | `Schemes` | the update rules of `Tools/Schemes.cpp` (function-argument and array forms) |
| `legacy_schemes.dfy` | `LegacySchemes` | what the older snapshots `Explicit_Schemes.cpp` and `Tools/Explicit_Schemes.cpp` add |
| `grid.dfy` | `Grid` | `Input`, `Bondary`, `sign`, `SET1`, `SET2`, dx and dt, and the number of passes of the `double t` loop |
| `engine.dfy` | `Engine` | the solver class of `Tools/WaveEquationSolver.cpp` and of `WaveEquationSolver.cpp`: one level function per sweep, the iterated trajectory `Levels`, in-place array sweeps and a class whose `matrix` field is proved equal to `Levels` after every solve |
| `prototype.dfy` | `Prototype` | `main.cpp`: its `SET1`/`SET2` as written, its two constructors, `changeInput` and the empty solve methods |
| `norms.dfy` | `Norms` | `Tools/Norms.cpp`: loops as methods proved against recursive specifications, and `interpolate` |
| `title.dfy` | `TitleParser` | `parse_title` of `viz2D_first_end_half.py`, with `os.path.splitext`, `str.split`, `in`, `int()` and `str()` on the ASCII subset it needs |

Doubles and long doubles are exact reals. The initial-condition callable,
`exp`, `sqrt` and `pow` are parameters.

Three features of the code are easy to misread. The model follows the code
in each.

- `Bondary::left` and `Bondary::right` are documented as the boundary
  conditions at the two ends (Tools/WaveEquationSolver.cpp:20-21). No solve
  reads them (`Engine.EdgeValuesUnread`). The points a sweep skips keep their
  sampled initial values instead (`Engine.LevelsKeepFrozen`).
- The comment above `I_FTBS_alternative` asks for the left neighbour from the
  row being built (Tools/Explicit_Schemes.cpp:42-43). The implicit sweep runs
  from i = N−2 down to 2 (Tools/WaveEquationSolver.cpp:144-147). So
  `row[i - 1]` still holds the previous level's value when it is read
  (finding 3 below).
- The Lax-Wendroff update is well defined for 1 ≤ i ≤ N−2, but its sweep
  updates only 2 ≤ i ≤ N−3 (Tools/WaveEquationSolver.cpp:166-167,
  `Engine.LaxWendroffLevel`). The Richtmyer sweeps update 1 ≤ i ≤ N−3
  (Tools/WaveEquationSolver.cpp:190-197, `Engine.RichtmyerLevel`).

## Model

| member | source | states |
|---|---|---|
| Schemes.Courant | Tools/Schemes.cpp:44 | the Courant number u dt / dx that every explicit and implicit rule scales by; `Grid.DerivedStepsKeepCourant` shows it equals the input's CFL |
| Schemes.ForwardDiff | Tools/Schemes.cpp:14-16 | the forward difference (f(x + dx) − f(x)) / dx; `Schemes.CentralIsMeanOfOneSided` relates it to the other two |
| Schemes.BackwardDiff | Tools/Schemes.cpp:23-25 | the backward difference (f(x) − f(x − dx)) / dx; `Schemes.FtbsIsUpwindEulerStep` shows FTBS is an Euler step along it |
| Schemes.CentralDiff | Tools/Schemes.cpp:32-34 | the central difference (f(x + dx) − f(x − dx)) / (2 dx); `Schemes.CentralIsMeanOfOneSided` shows it is the mean of the one-sided ones |
| Schemes.Ftbs | Tools/Schemes.cpp:43-45 | the function-argument FTBS update; `Schemes.FtbsIsUpwindEulerStep` and `Schemes.FtbsAlternativeAgreesWithFtbs` pin it |
| Schemes.LaxWendroff | Tools/Schemes.cpp:67-70 | the array Lax-Wendroff update; `Schemes.LaxWendroffStencil` and `Schemes.LaxWendroffKeepsConstant` pin it |
| Schemes.ImplicitFtbs | Tools/Schemes.cpp:82-84 | implicit FTBS in the Courant form; `Schemes.ImplicitFormsAgree` equates it with `Schemes.IFtbs` |
| Schemes.IFtbs | Tools/Schemes.cpp:93-95 | implicit FTBS in the u dt + dx form; `Schemes.IFtbsAlternativeAgreesWithIFtbs` equates it with the array form |
| Schemes.IFtbsAlternative | Tools/Schemes.cpp:106-108 | the array implicit rule with an explicit lastPoint; `Schemes.IFtbsAlternativeIsAverage`, `Schemes.IFtbsAlternativeBetween` and `Engine.IFtbsAlternativeSolves` pin it |
| Schemes.RichtmyerPrediction | Tools/Schemes.cpp:121-124 | the Richtmyer predictor; `Schemes.RichtmyerPredictionKeepsConstant` pins it |
| Schemes.RichtmyerCorrection | Tools/Schemes.cpp:135-137 | the Richtmyer corrector; `Schemes.RichtmyerCorrectionFlat` pins it |
| Schemes.CentralIsMeanOfOneSided | Tools/Schemes.cpp:14-34 | the central difference is the mean of the forward and backward differences |
| Schemes.FtbsIsUpwindEulerStep | Tools/Schemes.cpp:43-45 | FTBS is one Euler step f(x) − u dt · backward difference |
| Schemes.FtbsAlternative | Tools/Schemes.cpp:55-57 | the array form of FTBS is the blend (1 − c) p[i] + c p[i−1] with Courant number c |
| Schemes.FtbsAlternativeBetween | Tools/Schemes.cpp:55-57 | for 0 ≤ c ≤ 1 the explicit update lies between p[i−1] and p[i] (maximum principle) |
| Schemes.FtbsAlternativeAgreesWithFtbs | Tools/Schemes.cpp:43-57 | on a row that samples f at x0 + j dx, the array form equals the function form at the grid point |
| Schemes.LaxWendroffStencil | Tools/Schemes.cpp:67-70 | Lax-Wendroff at i depends only on p[i−1], p[i] and p[i+1] |
| Schemes.LaxWendroffKeepsConstant | Tools/Schemes.cpp:67-70 | Lax-Wendroff maps a constant stencil to that constant |
| Schemes.ImplicitFormsAgree | Tools/Schemes.cpp:82-95 | the two implicit FTBS formulas (with the Courant number and with u dt + dx) give the same value |
| Schemes.IFtbsAlternativeIsAverage | Tools/Schemes.cpp:106-108 | the array implicit rule is the weighted average of lastPoint and p[i], with weights u dt and dx |
| Schemes.IFtbsAlternativeBetween | Tools/Schemes.cpp:106-108 | for u dt > 0 and dx > 0 the implicit update lies between lastPoint and p[i] |
| Schemes.IFtbsAlternativeReadsOnlyI | Tools/Schemes.cpp:106-108 | the array implicit rule reads the previous level only at i |
| Schemes.IFtbsAlternativeAgreesWithIFtbs | Tools/Schemes.cpp:93-108 | on a sampled row, with lastPoint = f(x − dx), the array implicit rule equals the function form |
| Schemes.RichtmyerPredictionKeepsConstant | Tools/Schemes.cpp:121-124 | the predictor maps a constant stencil to that constant |
| Schemes.RichtmyerCorrectionFlat | Tools/Schemes.cpp:135-137 | the corrector returns p[i] when the predicted values at i−1 and i+1 are equal, and for u dt ≠ 0 only then |
| LegacySchemes.LaxWendroffAt | Explicit_Schemes.cpp:34-36 | the function-argument Lax-Wendroff of the older snapshots; `LegacySchemes.LaxWendroffAtKeepsConstant` pins it |
| LegacySchemes.IFtbsAlternativePrevRow | Tools/Explicit_Schemes.cpp:44-46 | the snapshot's implicit rule that reads p[i−1] of the previous level; `LegacySchemes.PrevRowIsAlternativeWithOldLeft` and `LegacySchemes.PrevRowStencil` pin it |
| LegacySchemes.LaxWendroffAtKeepsConstant | Explicit_Schemes.cpp:34-36 | the function-argument Lax-Wendroff maps a constant field to that constant |
| LegacySchemes.PrevRowIsAlternativeWithOldLeft | Tools/Explicit_Schemes.cpp:42-46 | the snapshot's implicit rule is the Tools/Schemes.cpp rule with lastPoint fixed to the previous level's p[i−1] |
| LegacySchemes.PrevRowStencil | Tools/Explicit_Schemes.cpp:44-46 | that rule reads the previous level only at i−1 and i |
| LegacySchemes.FtbsStillAndConstant | Explicit_Schemes.cpp:22-24 | with u dt = 0 FTBS returns f(x); on a constant field it returns the constant |
| LegacySchemes.ImplicitFtbsAverage | Explicit_Schemes.cpp:30-32 | implicit FTBS is the weighted average of f(x − dx) and f(x), with weights c and 1, and keeps constants |
| LegacySchemes.ImplicitFtbsBetween | Explicit_Schemes.cpp:30-32 | for c ≥ 0 implicit FTBS lies between f(x − dx) and f(x) |
| Grid.Sign | Tools/WaveEquationSolver.cpp:40-44 | sign is 1, −1 or 0; sign(x)·x = abs(x); sign is 0 exactly at 0 |
| Grid.Set1 | Tools/WaveEquationSolver.cpp:49-51 | the unit step is 0 left of the origin, 1/2 at it and 1 right of it |
| Grid.Set1IsNotHalfRightOfOrigin | Tools/WaveEquationSolver.cpp:46-51 | the doc comment's "0.5 for x >= 0" fails at x = 1, where SET1 is 1 |
| Grid.Set2 | Tools/WaveEquationSolver.cpp:56-58 | the Gaussian 0.5 exp(−x²) with `exp` a parameter; `Grid.Set2Shape` pins it |
| Grid.Set2Shape | Tools/WaveEquationSolver.cpp:56-58 | for any exponential that is positive, 1 at 0 and non-decreasing, the Gaussian is even, equals 1/2 at the origin and lies in (0, 1/2] |
| Grid.SpatialStep | Tools/WaveEquationSolver.cpp:84 | dx = (x_max − x_min) / N; `Grid.DerivedStepsKeepCourant` pins it |
| Grid.TimeStep | Tools/WaveEquationSolver.cpp:85 | dt = CFL dx / u; `Grid.DerivedStepsKeepCourant` pins it |
| Grid.Tick | Tools/WaveEquationSolver.cpp:120 | the j-fold sum dt + … + dt, which is the counter t at the j-th evaluation of the loop test; `Grid.TickIsProduct` and `Grid.TickIncreasing` pin it |
| Grid.DerivedStepsKeepCourant | Tools/WaveEquationSolver.cpp:83-86 | the derived dx is nonzero when the domain is non-empty, and u dt / dx = CFL |
| Grid.TickIsProduct | Tools/WaveEquationSolver.cpp:120 | after j passes the counter t, built by repeated t += dt, holds j dt |
| Grid.TickIncreasing | Tools/WaveEquationSolver.cpp:120 | with dt > 0 the counter strictly increases with the number of passes |
| Grid.Archimedes | Tools/WaveEquationSolver.cpp:143 | with dt > 0 the counter reaches any bound, so the time loop terminates |
| Grid.StepCountCounts | Tools/WaveEquationSolver.cpp:143 | the loop passes exactly for the values j dt, j ≥ 1, that are below the bound |
| Grid.StepCountUnique | Tools/WaveEquationSolver.cpp:143 | the bound determines the number of passes |
| Grid.ShiftedBoundOneMoreStep | Tools/WaveEquationSolver.cpp:120 | the bound t_max + dt gives one more pass than t_max when t_max > 0, and none otherwise |
| Grid.NonPositiveStepNeverEnds | Tools/WaveEquationSolver.cpp:143 | with dt ≤ 0 and a bound above dt, every counter value passes the test, so the loop never ends |
| Engine.InitialRow | Tools/WaveEquationSolver.cpp:114-117 | the first row, f(x_min + i dx) for 0 ≤ i < N; `Engine.InitialRowSamples` pins it |
| Engine.ExplicitLevel | Tools/WaveEquationSolver.cpp:121-124 | one explicit pass: FTBS at 1 ≤ i < N, point 0 kept; `Engine.ExplicitSweep`, `Engine.FirstExplicitLevelIsFtbs` and `Engine.AdvanceWithin` pin it |
| Engine.ImplicitLevel | Tools/WaveEquationSolver.cpp:144-147 | one descending implicit pass over N−2 ≥ i ≥ 2; `Engine.ImplicitSweep`, `Engine.ImplicitLevelUsesOldLeft` and `Engine.FirstImplicitLevelIsIFtbs` pin it |
| Engine.LaxWendroffLevel | Tools/WaveEquationSolver.cpp:166-170 | one Lax-Wendroff pass over 2 ≤ i ≤ N−3; `Engine.LaxWendroffSweep` and `Engine.LevelsKeepFrozen` pin it |
| Engine.RichtmyerHalf | Tools/WaveEquationSolver.cpp:191-194 | the predictor pass that fills row_half at 1 ≤ i ≤ N−3; `Engine.RichtmyerSweep` and `Engine.RichtmyerReadsStaleHalf` pin it |
| Engine.RichtmyerLevel | Tools/WaveEquationSolver.cpp:190-198 | the corrector pass at 1 ≤ i ≤ N−3 over that row_half; `Engine.RichtmyerSweep` and `Engine.RichtmyerReadsStaleHalf` pin it |
| Engine.Advance | Tools/WaveEquationSolver.cpp:120-199 | the next level for the selected scheme; `Engine.Sweep`, `Engine.AdvanceKeepsFlat` and `Engine.AdvanceWithin` pin it |
| Engine.Levels | Tools/WaveEquationSolver.cpp:118-126 | after k passes the matrix has k + 1 rows, each as wide as the first |
| Engine.LevelsExtend | Tools/WaveEquationSolver.cpp:118-126 | rows are only appended: the first j + 1 rows after k ≥ j passes are the rows after j passes |
| Engine.LevelsKeepFrozen | Tools/WaveEquationSolver.cpp:120-199 | points a scheme's sweep skips keep their initial value in every row |
| Engine.RichtmyerReadsStaleHalf | Tools/WaveEquationSolver.cpp:188-198 | row_half[N−2] is never written, so the corrector at N−3 reads the initial row's value there |
| Engine.AdvanceKeepsFlat | Tools/WaveEquationSolver.cpp:120-199 | every scheme maps a constant row to that constant row |
| Engine.ImplicitUpdateOfFlat | Tools/WaveEquationSolver.cpp:146 | the implicit update of a constant row returns the constant |
| Engine.LevelsKeepFlat | Tools/WaveEquationSolver.cpp:110-203 | a constant initial condition stays constant in every row for every scheme |
| Engine.AdvanceWithin | Tools/WaveEquationSolver.cpp:120-147 | explicit FTBS with 0 ≤ c ≤ 1 and implicit FTBS with u dt > 0, dx > 0 keep a row within the bounds of the row before |
| Engine.LevelsWithin | Tools/WaveEquationSolver.cpp:110-152 | for those schemes every row stays within the bounds of the initial row (no blow-up) |
| Engine.IFtbsAlternativeSolves | Tools/Schemes.cpp:106-108 | the implicit rule solves (u dt + dx) r = u dt lastPoint + dx p[i] |
| Engine.ImplicitLevelUsesOldLeft | Tools/WaveEquationSolver.cpp:144-147 | the descending sweep's value at i solves that equation with the previous level's p[i−1] as the left value |
| Engine.ImplicitLevelMissesEquation | Tools/WaveEquationSolver.cpp:144-147 | for dx = dt = u = 1 and level [0, 0, 1, 1, 0] the new row violates the implicit equation at i = 3 |
| Engine.ImplicitAscending | Tools/Explicit_Schemes.cpp:42-43 | an ascending sweep computes each updated point from the new value just left of it and leaves the other points unchanged |
| Engine.ImplicitAscendingSolvesEquation | Tools/Explicit_Schemes.cpp:42-43 | the ascending sweep's row satisfies the implicit equation at every updated point |
| Engine.InitialRowSamples | Tools/WaveEquationSolver.cpp:114-117 | the first row has N points and holds f(x_min + i dx) |
| Engine.FirstExplicitLevelIsFtbs | Tools/WaveEquationSolver.cpp:114-125 | the second row of an explicit solve is the function-argument FTBS of the initial condition at each grid point |
| Engine.FirstImplicitLevelIsIFtbs | Tools/WaveEquationSolver.cpp:137-147 | the second row of an implicit solve is the function-argument implicit FTBS at each updated grid point |
| Engine.EdgeValuesUnread | Tools/WaveEquationSolver.cpp:18-22 | changing the Bondary's left and right values does not change the initial row, and so changes no row |
| Engine.ExplicitSweep | Tools/WaveEquationSolver.cpp:121-124 | the in-place explicit sweep turns the array into ExplicitLevel of the previous row |
| Engine.ImplicitSweep | Tools/WaveEquationSolver.cpp:144-147 | the in-place descending implicit sweep turns the array into ImplicitLevel of the previous row |
| Engine.LaxWendroffSweep | Tools/WaveEquationSolver.cpp:167-170 | the in-place Lax-Wendroff sweep turns the array into LaxWendroffLevel of the previous row |
| Engine.RichtmyerSweep | Tools/WaveEquationSolver.cpp:191-198 | the two passes leave row_half = RichtmyerHalf and the row = RichtmyerLevel of the previous row |
| Engine.Sweep | Tools/WaveEquationSolver.cpp:120-199 | dispatch: the array becomes Advance of the previous row, and row_half keeps its stale entries |
| Engine.WaveEquationSolver.constructor | Tools/WaveEquationSolver.cpp:83-86 | the solver stores the input and derives dx = (x_max − x_min)/N and dt = CFL dx / u |
| Engine.WaveEquationSolver.SampleInitialCondition | Tools/WaveEquationSolver.cpp:112-117 | a fresh row holding the initial condition at every grid point |
| Engine.WaveEquationSolver.Pass | Tools/WaveEquationSolver.cpp:121-125 | one pass appends exactly the next level and keeps matrix = Levels |
| Engine.WaveEquationSolver.March | Tools/WaveEquationSolver.cpp:110-126 | clears and refills the matrix; afterwards it holds Levels for the number of passes the bound allows |
| Engine.WaveEquationSolver.TimeLoop | Tools/WaveEquationSolver.cpp:120-126 | the time loop runs exactly the step count for its bound and leaves matrix = Levels |
| Engine.WaveEquationSolver.SolveExplicitFtbs | Tools/WaveEquationSolver.cpp:110-129 | the matrix is the explicit trajectory, with one row per pass of t < t_max + dt |
| Engine.WaveEquationSolver.SolveExplicitFtbsToTMax | WaveEquationSolver.cpp:98-127 | the earlier snapshot's explicit solve gives the explicit trajectory with one row per pass of t < t_max |
| Engine.WaveEquationSolver.SolveImplicitFtbs | Tools/WaveEquationSolver.cpp:133-152 | the matrix is the implicit trajectory, with one row per pass of t < t_max |
| Engine.WaveEquationSolver.SolveLaxWendroff | Tools/WaveEquationSolver.cpp:156-175 | the matrix is the Lax-Wendroff trajectory, with one row per pass of t < t_max |
| Engine.WaveEquationSolver.SolveRichtmyer | Tools/WaveEquationSolver.cpp:179-203 | the matrix is the Richtmyer trajectory, with one row per pass of t < t_max |
| Engine.ShiftedRunOneLevelLonger | Tools/WaveEquationSolver.cpp:120-126 | the t < t_max + dt run has one more row than the t < t_max run when t_max > 0, and its other rows agree |
| Prototype.Sign | main.cpp:27-31 | the prototype's sign is the sign of Tools/WaveEquationSolver.cpp |
| Prototype.Set1AsWritten | main.cpp:33-35 | `1/2` is integer division, so SET1 is 0 everywhere |
| Prototype.Set1AsWrittenLosesStep | main.cpp:33-35 | at x = 1 the prototype gives 0 where the unit step is 1 |
| Prototype.Set2AsWritten | main.cpp:37-39 | in exact arithmetic SET2 is 0 everywhere, for the same reason (in double it is 0 only where exp(x²) is finite) |
| Prototype.Set2AsWrittenLosesPeak | main.cpp:37-39 | at the origin the prototype gives 0 where the Gaussian is 1/2 (exp(0) = 1 is finite, so this holds in double as well) |
| Prototype.SpatialStep | main.cpp:53 | the prototype's dx = (x_max − x_min) / N with a double N; `Prototype.StepsAgreeWithSolver` pins it |
| Prototype.TimeStep | main.cpp:54 | the prototype's dt = CFL dx / u; `Prototype.StepsAgreeWithSolver` pins it |
| Prototype.StepsAgreeWithSolver | main.cpp:53-54 | with a whole point count the prototype's dx and dt are those of Tools/WaveEquationSolver.cpp:84-85, so u dt / dx = CFL on a non-empty domain |
| Prototype.WaveEquationSolver.FromInput | main.cpp:49-55 | stores the input; dx and dt are derived from it |
| Prototype.WaveEquationSolver.FromFields | main.cpp:57-63 | assembles the record from the eight fields in declaration order; dx and dt are derived from it |
| Prototype.WaveEquationSolver.ChangeInput | main.cpp:65-71 | replaces the input and re-derives dx and dt from it alone |
| Prototype.WaveEquationSolver.Solve | main.cpp:73-75 | the stub changes nothing |
| Prototype.WaveEquationSolver.SolveEFtbs | main.cpp:77-80 | the stub changes nothing |
| Prototype.WaveEquationSolver.SolveIFtbs | main.cpp:82-84 | the stub changes nothing |
| Prototype.WaveEquationSolver.SolveLaxWendroff | main.cpp:86-88 | the stub changes nothing |
| Prototype.WaveEquationSolver.SolveRichtmyerMultiStep | main.cpp:90-92 | the stub changes nothing |
| Prototype.WaveEquationSolver.SolveAll | main.cpp:94-96 | the stub changes nothing |
| Norms.L1 | Tools/Norms.cpp:11-17 | the loop returns the sum of absolute values |
| Norms.L2 | Tools/Norms.cpp:22-28 | the loop returns sqrt of the sum of squares |
| Norms.LInf | Tools/Norms.cpp:33-40 | the loop returns the largest absolute value (0 for an empty vector) |
| Norms.Lp | Tools/Norms.cpp:47-53 | the loop returns pow(Σ pow(abs(x), p), 1/p) |
| Norms.SumAbsNonNegative | Tools/Norms.cpp:11-17 | the L1 norm is non-negative and 0 on the empty vector |
| Norms.SumSquaresNonNegative | Tools/Norms.cpp:22-28 | the sum under the L2 square root is non-negative |
| Norms.MaxAbsIsMaximum | Tools/Norms.cpp:33-40 | the L∞ norm bounds every absolute value and is attained by one of them when the vector is non-empty |
| Norms.MaxAbsAtMostSumAbs | Tools/Norms.cpp:11-40 | L∞ ≤ L1 |
| Norms.SumAbsAtMostCountTimesMax | Tools/Norms.cpp:11-40 | L1 ≤ length · L∞ |
| Norms.NormOf | Tools/Norms.cpp:63-78 | the selected norm: L1 and L∞ are non-negative and 0 on the empty vector, L∞ ≤ L1, and an out-of-range selector gives 0 |
| Norms.CalcNorm | Tools/Norms.cpp:63-78 | dispatch returns the selected norm, and 0 from the `default` arm for a selector outside the four enumerators |
| Norms.Normalize | Tools/Norms.cpp:104-109 | returns the selected norm divided by the length |
| Norms.MeanAbsWithinMax | Tools/Norms.cpp:104-109 | the normalised L1 norm lies between 0 and L∞ |
| Norms.Sample | Tools/Norms.cpp:90-94 | output i of `interpolate`; `Norms.SampleBetween` and `Norms.SampleOnPoint` pin it |
| Norms.Interpolated | Tools/Norms.cpp:84-97 | the resampled vector; `Norms.InterpolatedEnds` and `Norms.InterpolatedIdentity` pin it |
| Norms.PositionInRange | Tools/Norms.cpp:87-90 | every resampling position lies in [0, len − 1], and the last one is len − 1 |
| Norms.LeftIndex | Tools/Norms.cpp:91 | the truncated position is a valid index and the floor of the position |
| Norms.Interpolate | Tools/Norms.cpp:84-97 | the loop returns newSize samples, each the linear blend of its two neighbours |
| Norms.SampleBetween | Tools/Norms.cpp:90-94 | each sample is v[left](1 − w) + v[right] w with 0 ≤ w < 1, the right index clamped to the end, and lies between the two |
| Norms.SampleOnPoint | Tools/Norms.cpp:90-94 | a position that falls on an index returns that element |
| Norms.InterpolatedEnds | Tools/Norms.cpp:84-97 | resampling keeps the first and last values |
| Norms.InterpolatedIdentity | Tools/Norms.cpp:84-97 | resampling to the same length returns the vector unchanged |
| TitleParser.LastIndexOf | viz2D_first_end_half.py:13 | the position of the last occurrence, or −1 |
| TitleParser.SplitExt | viz2D_first_end_half.py:13 | root + ext is the name; ext is empty or a single dot-led suffix without '/' |
| TitleParser.SplitExtOfCsv | viz2D_first_end_half.py:13 | a dot-free, slash-free name with ".csv" appended splits back into that name and ".csv" |
| TitleParser.IndexOf | viz2D_first_end_half.py:14 | the position of the first occurrence, or the length |
| TitleParser.Split | viz2D_first_end_half.py:14 | split returns at least one piece, none containing the separator |
| TitleParser.JoinSplit | viz2D_first_end_half.py:14 | joining the pieces with the separator restores the string |
| TitleParser.SplitJoin | viz2D_first_end_half.py:14 | splitting a join of separator-free pieces returns the pieces |
| TitleParser.ContainsOccurs | viz2D_first_end_half.py:27 | `sub in s` holds exactly when sub occurs at some position |
| TitleParser.NatToString | viz2D_first_end_half.py:44 | str() of a natural number is a non-empty digit string |
| TitleParser.DigitsOfNat | viz2D_first_end_half.py:44 | reading those digits back gives the number |
| TitleParser.ParseIntOfString | viz2D_first_end_half.py:28-30 | int(str(i)) == i for every integer, negative ones included |
| TitleParser.ParseInt | viz2D_first_end_half.py:28-30 | Python's `int()` of a string, None where it raises ValueError; `TitleParser.ParseIntOfString` pins it |
| TitleParser.IntToString | viz2D_first_end_half.py:44 | `str()` of an int in an f-string; `TitleParser.ParseIntOfString` pins it |
| TitleParser.Title | viz2D_first_end_half.py:36-44 | the f-string title; `TitleParser.FieldsOfWrittenPieces` and `TitleParser.ExampleTitle` pin it |
| TitleParser.Parts | viz2D_first_end_half.py:13-14 | splitext, then split on '_'; `TitleParser.PartsOfWrittenName` pins it |
| TitleParser.Fields | viz2D_first_end_half.py:28-41 | one branch of the try block: the SET digit, n and T from pieces s, s + 2 and s + 3, with the IndexError text or a ValueError; `TitleParser.FieldsOfWrittenPieces` pins it |
| TitleParser.ParseTitle | viz2D_first_end_half.py:5-44 | parse_title: a title, the invalid-structure text, or the exception that escapes; `TitleParser.KeyErrorIffUnknownScheme`, `TitleParser.UnboundIffNoSet` and `TitleParser.ParseWrittenName` pin it |
| TitleParser.KeyErrorIffUnknownScheme | viz2D_first_end_half.py:17-26 | a KeyError escapes exactly when the first piece is not E, I, LW or Richtmyer |
| TitleParser.UnboundIffNoSet | viz2D_first_end_half.py:27-36 | the name `set_number` is unbound exactly when the scheme is known, there are at least three pieces and neither piece 1 nor piece 2 contains "SET" |
| TitleParser.InvalidOnlyWhenShort | viz2D_first_end_half.py:25-41 | the invalid-structure text comes back only for a known scheme with at most five pieces, and always for a lone known scheme |
| TitleParser.PartsOfWrittenName | viz2D_first_end_half.py:13-14 | a name joined from plain pieces plus ".csv" splits back into those pieces |
| TitleParser.FieldsOfWrittenPieces | viz2D_first_end_half.py:27-34 | pieces SET⟨d⟩, anything, str(n), str(T) give the title with d, n and T |
| TitleParser.ParseWrittenName | viz2D_first_end_half.py:5-44 | every file name of the written shape, with or without the word piece, parses to the title of its scheme, SET digit, n and T |
| TitleParser.ExampleNameIsWritten | viz2D_first_end_half.py:9 | the documented example name has the written shape |
| TitleParser.DocumentedExample | viz2D_first_end_half.py:9-10 | the example name parses to "Explicit FTBS, SET n°2, n=100, T=10", not to the title the docstring shows |
| TitleParser.ExampleTitle | viz2D_first_end_half.py:10 | the f-string of line 44 differs from the docstring's title |

## Left out

- Floating point: doubles and long doubles are exact reals. Rounding, overflow, NaN and infinities are not modelled. Prototype.Set2AsWritten is therefore 0 for every x, where the double expression is NaN once exp(x²) overflows. The time counter `t += dt` drifts under rounding, and the real loop can make one pass more or fewer than the exact count proved here.
- Division by zero is excluded by preconditions. The source would compute infinities or NaN instead:
  - a domain or point count that makes dx zero;
  - u = 0;
  - u dt + dx = 0 in the implicit rule;
  - p = 0 in `Lp`;
  - an empty vector in `Normalize`.
- Engine.WaveEquationSolver.constructor: requires N ≠ 0 and u ≠ 0, because the source divides by both.
- Prototype.WaveEquationSolver.FromInput: requires N ≠ 0 and u ≠ 0, for the same reason; so do Prototype.WaveEquationSolver.FromFields and Prototype.WaveEquationSolver.ChangeInput.
- Engine.WaveEquationSolver.March: requires dt > 0 or T ≤ dt. The inputs this leaves out are exactly dt ≤ 0 with dt < T, where the source's loop never ends (`Grid.NonPositiveStepNeverEnds`). The same requirement, with T = t_max + dt or T = t_max, is on Engine.WaveEquationSolver.TimeLoop and on the five solve methods: Engine.WaveEquationSolver.SolveExplicitFtbs (t_max ≤ 0), Engine.WaveEquationSolver.SolveExplicitFtbsToTMax, Engine.WaveEquationSolver.SolveImplicitFtbs, Engine.WaveEquationSolver.SolveLaxWendroff and Engine.WaveEquationSolver.SolveRichtmyer (t_max ≤ dt).
- Norms.Interpolate: requires newSize ≥ 2 and a non-empty vector. For newSize = 1 the source divides by zero. For an empty vector its `size_t` arithmetic wraps around.
- LegacySchemes.LaxWendroffAtKeepsConstant: only constant preservation is proved for the function-argument Lax-Wendroff of the older snapshots. Its agreement with the array form of Tools/Schemes.cpp, whose coefficient u²dt²/(2dx²) is written there as u²dt²/dx² · 0.5, is not stated.
- Norms.L2: the square root is a parameter, so only its argument is specified. The same holds for `pow` in Norms.Lp.
- Writing the matrix to CSV (`writeMatixToCSV`, `is_csv`), directory creation and the file-name parameters of the solve methods are file I/O and are not modelled.
- The `data` and `All` members of the solver's `Scheme` enumeration are never dispatched in the modelled files.
- The body of `main()` in `main.cpp` is not modelled. It is a driver over constant data whose aggregate initialiser lists seven values for the eight `Input` fields. `./BaseTools/Explicit_Schemes.cpp`, which it includes, is not part of this model.
- `main.cpp` keeps its `Input` private; Dafny fields have no access control.
- TitleParser: `int()` accepts only ASCII digits and ASCII whitespace here. Python also accepts other Unicode digits, other Unicode whitespace and `_` between digits.
- TitleParser: `os.path.splitext` follows POSIX path rules only.
- The plotting code of `viz2D_first_end_half.py` (`plot_csv` and the script body) is not modelled; nor are the other plotting scripts.
- `Tools/NumericalAnalysis.cpp`, `NormsProduction.cpp` and `IoFileManager.cpp` are not part of this model.
- The solve methods of `WaveEquationSolver.cpp` for implicit FTBS, Lax-Wendroff and Richtmyer run the same loops as those of `Tools/WaveEquationSolver.cpp`, and share their members. Its explicit solve differs only in the loop bound and is `Engine.WaveEquationSolver.SolveExplicitFtbsToTMax`.
- Engine.WaveEquationSolver.SolveImplicitFtbs: it keeps the source's descending sweep, including finding 3. The corrected ascending sweep exists only as the function `Engine.ImplicitAscending`.

## Findings

| source | as written | input that shows it | evidently intended | confidence | as-written member | corrected member |
|---|---|---|---|---|---|---|
| main.cpp:33-35 | `1/2 * (sign(x)+1)` divides integers, so SET1 is 0 everywhere | x = 1 gives 0 | the unit step 0.5 (sign(x) + 1), as in Tools/WaveEquationSolver.cpp:49-51 | not executed | Prototype.Set1AsWrittenLosesStep | Grid.Set1 |
| main.cpp:37-39 | `1/2 * exp(pow(-x,2))` is 0 wherever exp(x²) is finite, and NaN (0 · ∞) where it overflows (x² above about 709); without the `1/2` it would be exp(+x²), not a Gaussian | x = 0 gives 0 | 0.5 exp(−x²), as in Tools/WaveEquationSolver.cpp:56-58 | not executed | Prototype.Set2AsWrittenLosesPeak | Grid.Set2Shape |
| Tools/WaveEquationSolver.cpp:144-147 | the implicit sweep runs from N−2 down to 2, so `row[i-1]` still holds the previous level's value and the new row does not solve the implicit equation | dx = dt = u = 1, previous level [0, 0, 1, 1, 0]: the new value at i = 3 is 1, where the equation with the new left value 1/2 gives 3/4 | an ascending sweep that uses the new left value, as the comment at Tools/Explicit_Schemes.cpp:42-43 asks | not executed | Engine.ImplicitLevelMissesEquation | Engine.ImplicitAscendingSolvesEquation |

The first two findings also appear in the model's definitions.
`Prototype.Set1AsWritten` and `Prototype.Set2AsWritten` model `main.cpp` as
written. The engine uses the corrected `Grid.Set1` and `Grid.Set2`, which
match `Tools/WaveEquationSolver.cpp`.

The third finding is different. The engine's implicit solve keeps the
source's sweep order. `Engine.ImplicitAscending` is the corrected sweep, and
it is proved to solve the equation at every updated point.
`WaveEquationSolver.cpp:149-153` has the same descending loop.

Two documentation comments disagree with the code they describe:

- SET1 is documented as "0.5 for x >= 0" but gives 1 right of the origin (`Grid.Set1IsNotHalfRightOfOrigin`).
- The `parse_title` docstring shows a title that the f-string never produces (`TitleParser.DocumentedExample`, `TitleParser.ExampleTitle`).
