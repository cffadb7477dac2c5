/**
 * The time-marching engine of Tools/WaveEquationSolver.cpp (and of the earlier
 * WaveEquationSolver.cpp, whose solve methods are the same loops): every
 * solve clears the matrix, samples the initial condition into the first
 * level, then appends one level per pass of the time loop, computed from the
 * last level by one of four sweeps.
 *
 * Each sweep is specified by a function from the previous level to the next;
 * `Levels` iterates it. The solver class fills real arrays in place and is
 * proved to produce exactly `Levels`.
 */
module Engine {
  import opened Schemes
  import opened Grid

  /** The four solvers of the engine. */
  datatype Scheme = ExplicitUpwind | ImplicitUpwind | TwoLevelLaxWendroff | RichtmyerTwoStep

  /** The grid spacing, time step and velocity a solver works with. */
  datatype Mesh = Mesh(dx: real, dt: real, u: real)

  /** The divisions the scheme performs are by nonzero values. */
  predicate Defined(s: Scheme, m: Mesh)
  {
    m.dx != 0.0 && (s == ImplicitUpwind ==> m.u * m.dt + m.dx != 0.0)
  }

  /** Number of points of a level: the sampling loop runs for 0 <= i < N. */
  function Width(input: Input): nat
  {
    if input.n > 0 then input.n else 0
  }

  /** The first level: the initial condition sampled at x_min + i dx. */
  function InitialRow(input: Input, dx: real): seq<real>
  {
    seq(Width(input), j => input.boundary.t0(GridX(input.xMin, dx, j)))
  }

  // ---------------------------------------------------------------------------
  // One time level per scheme
  // ---------------------------------------------------------------------------

  /** solve_E_FTBS: every point but the first is updated from the previous level. */
  function ExplicitLevel(m: Mesh, p: seq<real>): seq<real>
    requires m.dx != 0.0
  {
    seq(|p|, i requires 0 <= i < |p| =>
      if 1 <= i then FtbsAlternative(m.dx, m.dt, m.u, p, i) else p[i])
  }

  /**
   * solve_I_FTBS: points N-2 down to 2 are updated; the left value row[i - 1]
   * has not been overwritten yet in a descending sweep, so it is p[i - 1].
   */
  function ImplicitLevel(m: Mesh, p: seq<real>): seq<real>
    requires m.u * m.dt + m.dx != 0.0
  {
    seq(|p|, i requires 0 <= i < |p| =>
      if 2 <= i <= |p| - 2 then IFtbsAlternative(m.dx, m.dt, m.u, p[i - 1], p, i) else p[i])
  }

  /** solve_Lax_Wendroff: points 2 .. N-3 are updated. */
  function LaxWendroffLevel(m: Mesh, p: seq<real>): seq<real>
    requires m.dx != 0.0
  {
    seq(|p|, i requires 0 <= i < |p| =>
      if 2 <= i < |p| - 2 then LaxWendroff(m.dx, m.dt, m.u, p, i) else p[i])
  }

  /**
   * Richtmyer predictor into row_half, points 1 .. N-3; the other entries of
   * row_half are never written and keep the first level's values `stale`.
   */
  function RichtmyerHalf(m: Mesh, p: seq<real>, stale: seq<real>): seq<real>
    requires m.dx != 0.0
    requires |stale| == |p|
  {
    seq(|p|, i requires 0 <= i < |p| =>
      if 1 <= i < |p| - 2 then RichtmyerPrediction(m.dx, m.dt, m.u, p, i) else stale[i])
  }

  /** Richtmyer corrector, points 1 .. N-3, reading the predicted half level. */
  function RichtmyerLevel(m: Mesh, p: seq<real>, stale: seq<real>): seq<real>
    requires m.dx != 0.0
    requires |stale| == |p|
  {
    var half := RichtmyerHalf(m, p, stale);
    seq(|p|, i requires 0 <= i < |p| =>
      if 1 <= i < |p| - 2 then RichtmyerCorrection(m.dx, m.dt, m.u, p, half, i) else p[i])
  }

  /** The level after p for scheme s (row0 is the first level). */
  function Advance(s: Scheme, m: Mesh, row0: seq<real>, p: seq<real>): seq<real>
    requires Defined(s, m)
    requires |p| == |row0|
  {
    match s
    case ExplicitUpwind => ExplicitLevel(m, p)
    case ImplicitUpwind => ImplicitLevel(m, p)
    case TwoLevelLaxWendroff => LaxWendroffLevel(m, p)
    case RichtmyerTwoStep => RichtmyerLevel(m, p, row0)
  }

  /** The matrix after k passes of the time loop: row0 and k advanced levels. */
  function Levels(s: Scheme, m: Mesh, row0: seq<real>, k: nat): (levels: seq<seq<real>>)
    requires Defined(s, m)
    ensures |levels| == k + 1
    ensures forall j :: 0 <= j < |levels| ==> |levels[j]| == |row0|
  {
    if k == 0 then [row0]
    else
      var before := Levels(s, m, row0, k - 1);
      before + [Advance(s, m, row0, before[k - 1])]
  }

  // ---------------------------------------------------------------------------
  // Properties of the trajectory
  // ---------------------------------------------------------------------------

  /** The matrix only grows: the first j + 1 levels of a longer run are the shorter run. */
  lemma {:induction false} LevelsExtend(s: Scheme, m: Mesh, row0: seq<real>, j: nat, k: nat)
    requires Defined(s, m)
    requires j <= k
    ensures Levels(s, m, row0, k)[..j + 1] == Levels(s, m, row0, j)
    decreases k
  {
    if j < k {
      LevelsExtend(s, m, row0, j, k - 1);
      LevelsStep(s, m, row0, k);
      PrefixOfPrefix(Levels(s, m, row0, k), k, j + 1);
    }
  }

  /** A prefix of a prefix is a prefix. */
  lemma PrefixOfPrefix(a: seq<seq<real>>, k: nat, j: nat)
    requires j <= k <= |a|
    ensures a[..k][..j] == a[..j]
  {
  }

  /** One more pass appends the level advanced from the last one. */
  lemma LevelsAppend(s: Scheme, m: Mesh, row0: seq<real>, k: nat)
    requires Defined(s, m)
    ensures Levels(s, m, row0, k + 1) == Levels(s, m, row0, k) + [Advance(s, m, row0, Levels(s, m, row0, k)[k])]
  {
  }

  /** One more pass appends one level and keeps the earlier ones. */
  lemma LevelsStep(s: Scheme, m: Mesh, row0: seq<real>, k: nat)
    requires Defined(s, m)
    requires k >= 1
    ensures Levels(s, m, row0, k)[..k] == Levels(s, m, row0, k - 1)
  {
    var before := Levels(s, m, row0, k - 1);
    assert Levels(s, m, row0, k) == before + [Advance(s, m, row0, before[k - 1])];
  }

  /** An index the sweep does not write for scheme s on a level of width w. */
  predicate Frozen(s: Scheme, w: int, i: int)
  {
    match s
    case ExplicitUpwind => i == 0
    case ImplicitUpwind => i <= 1 || i == w - 1
    case TwoLevelLaxWendroff => i <= 1 || i >= w - 2
    case RichtmyerTwoStep => i == 0 || i >= w - 2
  }

  /** The edges no sweep writes keep their initial values on every level. */
  lemma {:induction false} LevelsKeepFrozen(s: Scheme, m: Mesh, row0: seq<real>, k: nat)
    requires Defined(s, m)
    ensures forall j, i :: 0 <= j <= k && 0 <= i < |row0| && Frozen(s, |row0|, i) ==>
      Levels(s, m, row0, k)[j][i] == row0[i]
  {
    if k > 0 {
      LevelsKeepFrozen(s, m, row0, k - 1);
      LevelsExtend(s, m, row0, k - 1, k);
      var before := Levels(s, m, row0, k - 1);
      var last := Levels(s, m, row0, k)[k];
      assert last == Advance(s, m, row0, before[k - 1]);
      forall j, i | 0 <= j <= k && 0 <= i < |row0| && Frozen(s, |row0|, i)
        ensures Levels(s, m, row0, k)[j][i] == row0[i]
      {
        if j < k {
          assert Levels(s, m, row0, k)[j] == Levels(s, m, row0, k)[..k][j];
        } else {
          assert last[i] == before[k - 1][i];
        }
      }
    }
  }

  /** The first interior point the Richtmyer corrector updates reads the never-predicted row_half[N-2]. */
  lemma RichtmyerReadsStaleHalf(m: Mesh, p: seq<real>, row0: seq<real>)
    requires m.dx != 0.0
    requires |row0| == |p| && |p| >= 4
    ensures RichtmyerHalf(m, p, row0)[|p| - 2] == row0[|p| - 2]
    ensures RichtmyerLevel(m, p, row0)[|p| - 3]
      == p[|p| - 3] - Courant(m.dx, m.dt, m.u) * 0.5 * (row0[|p| - 2] - RichtmyerHalf(m, p, row0)[|p| - 4])
  {
  }

  /** All values equal to c. */
  predicate Flat(p: seq<real>, c: real)
  {
    forall i :: 0 <= i < |p| ==> p[i] == c
  }

  /** One level of any scheme maps a flat row to itself (Richtmyer's stale entries being flat too). */
  lemma AdvanceKeepsFlat(s: Scheme, m: Mesh, row0: seq<real>, p: seq<real>, c: real)
    requires Defined(s, m)
    requires |p| == |row0|
    requires Flat(p, c) && Flat(row0, c)
    ensures Flat(Advance(s, m, row0, p), c)
  {
    var r := Advance(s, m, row0, p);
    forall i | 0 <= i < |r|
      ensures r[i] == c
    {
      match s
      case ExplicitUpwind =>
        if 1 <= i {
          assert FtbsAlternative(m.dx, m.dt, m.u, p, i)
            == (1.0 - Courant(m.dx, m.dt, m.u)) * c + Courant(m.dx, m.dt, m.u) * c;
        }
      case ImplicitUpwind =>
        if 2 <= i <= |p| - 2 {
          ImplicitUpdateOfFlat(m, p, i, c);
        }
      case TwoLevelLaxWendroff =>
        if 2 <= i < |p| - 2 {
          LaxWendroffKeepsConstant(m.dx, m.dt, m.u, p, i, c);
        }
      case RichtmyerTwoStep =>
        if 1 <= i < |p| - 2 {
          var half := RichtmyerHalf(m, p, row0);
          assert half[i - 1] == c by {
            if 1 <= i - 1 { RichtmyerPredictionKeepsConstant(m.dx, m.dt, m.u, p, i - 1, c); }
          }
          assert half[i + 1] == c by {
            if i + 1 < |p| - 2 { RichtmyerPredictionKeepsConstant(m.dx, m.dt, m.u, p, i + 1, c); }
          }
          RichtmyerCorrectionFlat(m.dx, m.dt, m.u, p, half, i);
        }
    }
  }

  /** The implicit update of a flat row at i is the constant. */
  lemma ImplicitUpdateOfFlat(m: Mesh, p: seq<real>, i: int, c: real)
    requires m.u * m.dt + m.dx != 0.0
    requires 1 <= i < |p|
    requires Flat(p, c)
    ensures IFtbsAlternative(m.dx, m.dt, m.u, p[i - 1], p, i) == c
  {
    var w := m.u * m.dt + m.dx;
    assert m.u * m.dt * c + m.dx * c == c * w;
  }

  /** A flat initial level stays flat for every scheme and every number of steps. */
  lemma {:induction false} LevelsKeepFlat(s: Scheme, m: Mesh, row0: seq<real>, k: nat, c: real)
    requires Defined(s, m)
    requires Flat(row0, c)
    ensures forall j :: 0 <= j <= k ==> Flat(Levels(s, m, row0, k)[j], c)
  {
    if k > 0 {
      LevelsKeepFlat(s, m, row0, k - 1, c);
      var before := Levels(s, m, row0, k - 1);
      AdvanceKeepsFlat(s, m, row0, before[k - 1], c);
      assert Levels(s, m, row0, k) == before + [Advance(s, m, row0, before[k - 1])];
    }
  }

  /** All values within [lo, hi]. */
  predicate Within(p: seq<real>, lo: real, hi: real)
  {
    forall i :: 0 <= i < |p| ==> lo <= p[i] <= hi
  }

  /** Upwind schemes obey a maximum principle: explicit for 0 <= Courant <= 1, implicit for u dt > 0, dx > 0. */
  predicate Monotone(s: Scheme, m: Mesh)
  {
    match s
    case ExplicitUpwind => m.dx != 0.0 && 0.0 <= Courant(m.dx, m.dt, m.u) <= 1.0
    case ImplicitUpwind => m.u * m.dt > 0.0 && m.dx > 0.0
    case _ => false
  }

  /** One monotone level keeps the values within the bounds of the level before. */
  lemma AdvanceWithin(s: Scheme, m: Mesh, row0: seq<real>, p: seq<real>, lo: real, hi: real)
    requires Monotone(s, m)
    requires |p| == |row0|
    requires Within(p, lo, hi)
    ensures Defined(s, m)
    ensures Within(Advance(s, m, row0, p), lo, hi)
  {
    var r := Advance(s, m, row0, p);
    forall i | 0 <= i < |r|
      ensures lo <= r[i] <= hi
    {
      if s == ExplicitUpwind && 1 <= i {
        FtbsAlternativeBetween(m.dx, m.dt, m.u, p, i);
      } else if s == ImplicitUpwind && 2 <= i <= |p| - 2 {
        IFtbsAlternativeBetween(m.dx, m.dt, m.u, p[i - 1], p, i);
      }
    }
  }

  /** Maximum principle for the whole run: no level leaves the range of the initial condition. */
  lemma {:induction false} LevelsWithin(s: Scheme, m: Mesh, row0: seq<real>, k: nat, lo: real, hi: real)
    requires Monotone(s, m)
    requires Within(row0, lo, hi)
    ensures Defined(s, m)
    ensures forall j :: 0 <= j <= k ==> Within(Levels(s, m, row0, k)[j], lo, hi)
  {
    AdvanceWithin(s, m, row0, row0, lo, hi);
    if k > 0 {
      LevelsWithin(s, m, row0, k - 1, lo, hi);
      var before := Levels(s, m, row0, k - 1);
      AdvanceWithin(s, m, row0, before[k - 1], lo, hi);
      assert Levels(s, m, row0, k) == before + [Advance(s, m, row0, before[k - 1])];
    }
  }

  // ---------------------------------------------------------------------------
  // Implicit FTBS: the sweep order decides which left value is read
  // ---------------------------------------------------------------------------

  /**
   * The implicit upwind equation at i: (u dt + dx) r[i] = u dt r[i - 1] + dx p[i],
   * i.e. backward Euler in time with the backward difference taken on the new level r.
   */
  predicate ImplicitEquationAt(m: Mesh, p: seq<real>, r: seq<real>, i: int)
    requires 1 <= i < |p| && i < |r|
  {
    (m.u * m.dt + m.dx) * r[i] == m.u * m.dt * r[i - 1] + m.dx * p[i]
  }

  /** An implicit value satisfies its defining equation with the left value it was given. */
  lemma IFtbsAlternativeSolves(m: Mesh, lastPoint: real, p: seq<real>, i: int)
    requires m.u * m.dt + m.dx != 0.0
    requires 0 <= i < |p|
    ensures (m.u * m.dt + m.dx) * IFtbsAlternative(m.dx, m.dt, m.u, lastPoint, p, i)
      == m.u * m.dt * lastPoint + m.dx * p[i]
  {
    var n := m.u * m.dt * lastPoint + m.dx * p[i];
    DivideTimes(n, m.u * m.dt + m.dx);
  }

  /**
   * The descending sweep of solve_I_FTBS reads row[i - 1] before it is
   * overwritten, so every updated point solves the equation with the left
   * value of the previous level: (u dt + dx) r[i] = u dt p[i - 1] + dx p[i].
   */
  lemma ImplicitLevelUsesOldLeft(m: Mesh, p: seq<real>, i: int)
    requires m.u * m.dt + m.dx != 0.0
    requires 2 <= i <= |p| - 2
    ensures (m.u * m.dt + m.dx) * ImplicitLevel(m, p)[i] == m.u * m.dt * p[i - 1] + m.dx * p[i]
  {
    IFtbsAlternativeSolves(m, p[i - 1], p, i);
  }

  /** A level where the descending sweep's result misses the implicit equation at i = 3. */
  lemma ImplicitLevelMissesEquation()
    ensures var m, p := Mesh(1.0, 1.0, 1.0), [0.0, 0.0, 1.0, 1.0, 0.0];
      ImplicitLevel(m, p)[2] == 0.5 && ImplicitLevel(m, p)[3] == 1.0
      && !ImplicitEquationAt(m, p, ImplicitLevel(m, p), 3)
  {
    var m, p := Mesh(1.0, 1.0, 1.0), [0.0, 0.0, 1.0, 1.0, 0.0];
    var r := ImplicitLevel(m, p);
    IFtbsAlternativeSolves(m, p[1], p, 2);
    IFtbsAlternativeSolves(m, p[2], p, 3);
    assert 2.0 * r[2] == 1.0 && 2.0 * r[3] == 2.0;
  }

  /**
   * The first k points of the level an ascending sweep i = 2 .. N-2 builds:
   * each updated point takes the value just computed to its left.
   */
  function ImplicitAscending(m: Mesh, p: seq<real>, k: nat): (r: seq<real>)
    requires m.u * m.dt + m.dx != 0.0
    requires k <= |p|
    ensures |r| == k
    ensures forall i :: 0 <= i < k && !(2 <= i <= |p| - 2) ==> r[i] == p[i]
    ensures forall i :: 2 <= i < k && i <= |p| - 2 ==> r[i] == IFtbsAlternative(m.dx, m.dt, m.u, r[i - 1], p, i)
  {
    if k == 0 then []
    else
      var r := ImplicitAscending(m, p, k - 1);
      var i := k - 1;
      r + [if 2 <= i <= |p| - 2 then IFtbsAlternative(m.dx, m.dt, m.u, r[i - 1], p, i) else p[i]]
  }

  /** The ascending level solves the implicit upwind equation at every updated point. */
  lemma ImplicitAscendingSolvesEquation(m: Mesh, p: seq<real>, i: int)
    requires m.u * m.dt + m.dx != 0.0
    requires 2 <= i <= |p| - 2
    ensures ImplicitEquationAt(m, p, ImplicitAscending(m, p, |p|), i)
  {
    var r := ImplicitAscending(m, p, |p|);
    IFtbsAlternativeSolves(m, r[i - 1], p, i);
  }

  /** The first level samples the initial condition on the grid. */
  lemma InitialRowSamples(input: Input, dx: real)
    ensures |InitialRow(input, dx)| == Width(input)
    ensures SamplesOf(InitialRow(input, dx), input.xMin, dx, input.boundary.t0)
  {
  }

  /** The second explicit level is FTBS applied to the initial condition at each grid point. */
  lemma FirstExplicitLevelIsFtbs(input: Input, m: Mesh, i: int)
    requires m.dx != 0.0
    requires 1 <= i < Width(input)
    ensures Levels(ExplicitUpwind, m, InitialRow(input, m.dx), 1)[1][i]
      == Ftbs(GridX(input.xMin, m.dx, i), m.dx, m.dt, m.u, input.boundary.t0)
  {
    var row0 := InitialRow(input, m.dx);
    InitialRowSamples(input, m.dx);
    FtbsAlternativeAgreesWithFtbs(input.xMin, m.dx, m.dt, m.u, input.boundary.t0, row0, i);
  }

  /** The second implicit level is I_FTBS applied to the initial condition at each updated point. */
  lemma FirstImplicitLevelIsIFtbs(input: Input, m: Mesh, i: int)
    requires Defined(ImplicitUpwind, m)
    requires 2 <= i <= Width(input) - 2
    ensures Levels(ImplicitUpwind, m, InitialRow(input, m.dx), 1)[1][i]
      == IFtbs(GridX(input.xMin, m.dx, i), m.dx, m.dt, m.u, input.boundary.t0)
  {
    var row0 := InitialRow(input, m.dx);
    InitialRowSamples(input, m.dx);
    IFtbsAlternativeAgreesWithIFtbs(input.xMin, m.dx, m.dt, m.u, input.boundary.t0, row0, i);
  }

  /** Two inputs differing only in the edge values produce the same first level. */
  lemma EdgeValuesUnread(input: Input, other: Input, dx: real)
    requires other == input.(boundary := Boundary(input.boundary.t0, other.boundary.left, other.boundary.right))
    ensures InitialRow(other, dx) == InitialRow(input, dx)
  {
  }

  // ---------------------------------------------------------------------------
  // In-place sweeps over the working row
  // ---------------------------------------------------------------------------

  /** Explicit FTBS sweep, i = 1 .. N-1, each point from the previous level. */
  method ExplicitSweep(m: Mesh, row: array<real>, prev: seq<real>)
    requires m.dx != 0.0
    requires row[..] == prev
    modifies row
    ensures row[..] == ExplicitLevel(m, prev)
  {
    var i := 1;
    while i < row.Length
      invariant 1 <= i && (i <= row.Length || row.Length == 0)
      invariant forall j :: 0 <= j < row.Length ==> row[j] == (if 1 <= j < i then ExplicitLevel(m, prev)[j] else prev[j])
    {
      row[i] := FtbsAlternative(m.dx, m.dt, m.u, prev, i);
      i := i + 1;
    }
  }

  /** Implicit FTBS sweep, i = N-2 down to 2, reading row[i - 1] before it is overwritten. */
  method ImplicitSweep(m: Mesh, row: array<real>, prev: seq<real>)
    requires m.u * m.dt + m.dx != 0.0
    requires row[..] == prev
    modifies row
    ensures row[..] == ImplicitLevel(m, prev)
  {
    var i := row.Length - 2;
    while i > 1
      invariant i <= row.Length - 2
      invariant forall j :: 0 <= j < row.Length ==>
        row[j] == (if i < j <= row.Length - 2 && 2 <= j then ImplicitLevel(m, prev)[j] else prev[j])
      decreases i
    {
      row[i] := IFtbsAlternative(m.dx, m.dt, m.u, row[i - 1], prev, i);
      i := i - 1;
    }
  }

  /** Lax-Wendroff sweep, i = 2 .. N-3. */
  method LaxWendroffSweep(m: Mesh, row: array<real>, prev: seq<real>)
    requires m.dx != 0.0
    requires row[..] == prev
    modifies row
    ensures row[..] == LaxWendroffLevel(m, prev)
  {
    var i := 2;
    while i < row.Length - 2
      invariant 2 <= i && (i <= row.Length - 2 || row.Length < 4)
      invariant forall j :: 0 <= j < row.Length ==>
        row[j] == (if 2 <= j < i then LaxWendroffLevel(m, prev)[j] else prev[j])
    {
      row[i] := LaxWendroff(m.dx, m.dt, m.u, prev, i);
      i := i + 1;
    }
  }

  /** Richtmyer sweep: predictor into half, i = 1 .. N-3, then corrector into row. */
  method RichtmyerSweep(m: Mesh, row: array<real>, half: array<real>, prev: seq<real>, row0: seq<real>)
    requires m.dx != 0.0
    requires row != half
    requires row[..] == prev && |row0| == |prev| && half.Length == |prev|
    requires StaleHalf(half, row0)
    modifies row, half
    ensures half[..] == RichtmyerHalf(m, prev, row0)
    ensures row[..] == RichtmyerLevel(m, prev, row0)
  {
    var i := 1;
    while i < half.Length - 2
      invariant 1 <= i && (i <= half.Length - 2 || half.Length < 3)
      invariant row[..] == prev
      invariant forall j :: 0 <= j < half.Length ==>
        half[j] == (if 1 <= j < i then RichtmyerHalf(m, prev, row0)[j]
                    else if 1 <= j < half.Length - 2 then half[j] else row0[j])
    {
      half[i] := RichtmyerPrediction(m.dx, m.dt, m.u, prev, i);
      i := i + 1;
    }
    assert half[..] == RichtmyerHalf(m, prev, row0);
    i := 1;
    while i < row.Length - 2
      invariant 1 <= i && (i <= row.Length - 2 || row.Length < 3)
      invariant half[..] == RichtmyerHalf(m, prev, row0)
      invariant forall j :: 0 <= j < row.Length ==>
        row[j] == (if 1 <= j < i then RichtmyerLevel(m, prev, row0)[j] else prev[j])
    {
      row[i] := RichtmyerCorrection(m.dx, m.dt, m.u, prev, half[..], i);
      i := i + 1;
    }
  }

  /** The entries of row_half that the predictor never writes hold the first level's values. */
  ghost predicate StaleHalf(half: array<real>, row0: seq<real>)
    reads half
  {
    half.Length == |row0| && forall j :: 0 <= j < half.Length && !(1 <= j < half.Length - 2) ==> half[j] == row0[j]
  }

  /** One pass of the time loop body for scheme s: the working row becomes the next level. */
  method Sweep(s: Scheme, m: Mesh, row: array<real>, half: array<real>, prev: seq<real>, row0: seq<real>)
    requires Defined(s, m)
    requires row != half
    requires row[..] == prev && |row0| == |prev|
    requires StaleHalf(half, row0)
    modifies row, half
    ensures row[..] == Advance(s, m, row0, prev)
    ensures StaleHalf(half, row0)
  {
    match s {
      case ExplicitUpwind => ExplicitSweep(m, row, prev);
      case ImplicitUpwind => ImplicitSweep(m, row, prev);
      case TwoLevelLaxWendroff => LaxWendroffSweep(m, row, prev);
      case RichtmyerTwoStep => RichtmyerSweep(m, row, half, prev, row0);
    }
  }

  // ---------------------------------------------------------------------------
  // The solver object
  // ---------------------------------------------------------------------------

  /** The solver: the run description, the derived steps and the matrix of levels. */
  class WaveEquationSolver {
    var dt: real
    var dx: real
    var matrix: seq<seq<real>>
    var input: Input

    /** dx = (x_max - x_min) / N and dt = CFL dx / u; the matrix starts empty. */
    constructor (input: Input)
      requires input.n != 0 && input.u != 0.0
      ensures this.input == input
      ensures dx == SpatialStep(input) && dt == TimeStep(input)
      ensures matrix == []
    {
      this.input := input;
      dx := SpatialStep(input);
      dt := TimeStep(input);
      matrix := [];
    }

    /** The mesh the sweeps use. */
    function Steps(): Mesh
      reads this`dx, this`dt, this`input
    {
      Mesh(dx, dt, input.u)
    }

    /** Samples the initial condition into a fresh working row. */
    method SampleInitialCondition() returns (row: array<real>)
      ensures fresh(row)
      ensures row[..] == InitialRow(input, dx)
    {
      var w := Width(input);
      row := new real[w];
      var i := 0;
      while i < w
        invariant 0 <= i <= w
        invariant forall j :: 0 <= j < i ==> row[j] == InitialRow(input, dx)[j]
      {
        row[i] := input.boundary.t0(GridX(input.xMin, dx, i));
        i := i + 1;
      }
    }

    /** One pass of the time loop: sweep the working row and append it to the matrix as the next level. */
    method Pass(s: Scheme, m: Mesh, row: array<real>, half: array<real>, row0: seq<real>)
      requires Defined(s, m)
      requires row != half && row.Length == |row0|
      requires |matrix| >= 1 && matrix == Levels(s, m, row0, |matrix| - 1)
      requires row[..] == matrix[|matrix| - 1]
      requires StaleHalf(half, row0)
      modifies this`matrix, row, half
      ensures |matrix| == old(|matrix|) + 1
      ensures matrix == Levels(s, m, row0, |matrix| - 1)
      ensures row[..] == matrix[|matrix| - 1]
      ensures StaleHalf(half, row0)
    {
      var prev := matrix[|matrix| - 1];
      Sweep(s, m, row, half, prev, row0);
      LevelsAppend(s, m, row0, |matrix| - 1);
      matrix := matrix + [row[..]];
    }

    /**
     * Clears the matrix, stores the first level and runs the time loop t = dt, 2 dt, ... while t < T.
     * A step dt <= 0 is admitted when the loop test fails at once (T <= dt); with dt <= 0 and
     * dt < T the loop never ends (Grid.NonPositiveStepNeverEnds).
     */
    method March(s: Scheme, T: real)
      requires Defined(s, Steps()) && (dt > 0.0 || T <= dt)
      modifies this`matrix
      ensures |matrix| >= 1
      ensures IsStepCount(|matrix| - 1, T, dt)
      ensures matrix == Levels(s, Steps(), InitialRow(input, dx), |matrix| - 1)
    {
      var row := SampleInitialCondition();
      var row0 := row[..];
      // row_half = row; read and written by the Richtmyer sweep only
      var half := new real[row.Length](j requires 0 <= j < |row0| => row0[j]);
      assert StaleHalf(half, row0);
      matrix := [row0];
      TimeLoop(s, T, row, half, row0);
    }

    /** The time loop: one pass per value t = dt, 2 dt, ... below T, each appending a level. */
    method TimeLoop(s: Scheme, T: real, row: array<real>, half: array<real>, row0: seq<real>)
      requires Defined(s, Steps()) && (dt > 0.0 || T <= dt)
      requires row != half && row.Length == |row0|
      requires matrix == [row0] && row[..] == row0
      requires StaleHalf(half, row0)
      modifies this`matrix, row, half
      ensures |matrix| >= 1
      ensures IsStepCount(|matrix| - 1, T, dt)
      ensures matrix == Levels(s, Steps(), row0, |matrix| - 1)
    {
      var t := dt;
      if dt <= 0.0 {
        // T <= dt: the loop test fails on the first evaluation and the matrix keeps its one level
        assert !(t < T);
        return;
      }
      ghost var bound := Archimedes(T, dt);
      var m := Steps();
      while t < T
        invariant |matrix| >= 1
        invariant t == Tick(|matrix|, dt)
        invariant |matrix| == 1 || Tick(|matrix| - 1, dt) < T
        invariant matrix == Levels(s, m, row0, |matrix| - 1)
        invariant row[..] == matrix[|matrix| - 1]
        invariant StaleHalf(half, row0)
        decreases bound - |matrix|
      {
        FewerSteps(|matrix|, bound, dt);
        NextTick(|matrix|, dt);
        Pass(s, m, row, half, row0);
        t := t + dt;
      }
      assert T <= Tick(|matrix| - 1 + 1, dt);
    }

    /** solve_E_FTBS: the time loop runs while t < t_max + dt. */
    method SolveExplicitFtbs()
      requires dx != 0.0 && (dt > 0.0 || input.tMax as real <= 0.0)
      modifies this`matrix
      ensures |matrix| >= 1
      ensures IsStepCount(|matrix| - 1, input.tMax as real + dt, dt)
      ensures matrix == Levels(ExplicitUpwind, Steps(), InitialRow(input, dx), |matrix| - 1)
    {
      March(ExplicitUpwind, input.tMax as real + dt);
    }

    /** solve_E_FTBS of the earlier WaveEquationSolver.cpp: the time loop runs while t < t_max. */
    method SolveExplicitFtbsToTMax()
      requires dx != 0.0 && (dt > 0.0 || input.tMax as real <= dt)
      modifies this`matrix
      ensures |matrix| >= 1
      ensures IsStepCount(|matrix| - 1, input.tMax as real, dt)
      ensures matrix == Levels(ExplicitUpwind, Steps(), InitialRow(input, dx), |matrix| - 1)
    {
      March(ExplicitUpwind, input.tMax as real);
    }

    /** solve_I_FTBS: t < t_max. */
    method SolveImplicitFtbs()
      requires dx != 0.0 && input.u * dt + dx != 0.0 && (dt > 0.0 || input.tMax as real <= dt)
      modifies this`matrix
      ensures |matrix| >= 1
      ensures IsStepCount(|matrix| - 1, input.tMax as real, dt)
      ensures matrix == Levels(ImplicitUpwind, Steps(), InitialRow(input, dx), |matrix| - 1)
    {
      March(ImplicitUpwind, input.tMax as real);
    }

    /** solve_Lax_Wendroff: t < t_max. */
    method SolveLaxWendroff()
      requires dx != 0.0 && (dt > 0.0 || input.tMax as real <= dt)
      modifies this`matrix
      ensures |matrix| >= 1
      ensures IsStepCount(|matrix| - 1, input.tMax as real, dt)
      ensures matrix == Levels(TwoLevelLaxWendroff, Steps(), InitialRow(input, dx), |matrix| - 1)
    {
      March(TwoLevelLaxWendroff, input.tMax as real);
    }

    /** solve_Richtmyer_MultiStep: t < t_max. */
    method SolveRichtmyer()
      requires dx != 0.0 && (dt > 0.0 || input.tMax as real <= dt)
      modifies this`matrix
      ensures |matrix| >= 1
      ensures IsStepCount(|matrix| - 1, input.tMax as real, dt)
      ensures matrix == Levels(RichtmyerTwoStep, Steps(), InitialRow(input, dx), |matrix| - 1)
    {
      March(RichtmyerTwoStep, input.tMax as real);
    }
  }

  /**
   * For t_max > 0 the explicit run bounded by t_max + dt has exactly one level
   * more than the run bounded by t_max, and begins with all of its levels.
   */
  lemma ShiftedRunOneLevelLonger(m: Mesh, row0: seq<real>, tMax: real, k1: nat, k2: nat)
    requires m.dx != 0.0 && m.dt > 0.0
    requires IsStepCount(k1, tMax + m.dt, m.dt) && IsStepCount(k2, tMax, m.dt)
    ensures tMax > 0.0 ==> k1 == k2 + 1
    ensures tMax <= 0.0 ==> k1 == 0 && k2 == 0
    ensures k2 <= k1 && Levels(ExplicitUpwind, m, row0, k1)[..k2 + 1] == Levels(ExplicitUpwind, m, row0, k2)
  {
    ShiftedBoundOneMoreStep(k2, tMax, m.dt);
    if tMax > 0.0 {
      StepCountUnique(k1, k2 + 1, tMax + m.dt, m.dt);
    } else {
      StepCountUnique(k1, 0, tMax + m.dt, m.dt);
      if k2 > 0 {
        TickIncreasing(0, k2, m.dt);
      }
    }
    LevelsExtend(ExplicitUpwind, m, row0, k2, k1);
  }
}
