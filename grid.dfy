/**
 * The run description and the pure part of the solver
 * (Tools/WaveEquationSolver.cpp): the Bondary and Input records, `sign`, the
 * unit-step initial condition SET1, the spacing and time step derived from an
 * Input, and the number of levels the `double t` time loop produces under
 * exact arithmetic.
 */
module Grid {
  import opened Schemes

  /** Initial condition f(x, 0) and the two edge values (which no solve reads). */
  datatype Boundary = Boundary(t0: real -> real, left: real, right: real)

  /** One run: velocity, domain length and bounds, duration, point count, Courant number. */
  datatype Input = Input(u: real, len: real, xMin: real, xMax: real, tMax: int, n: int, cfl: real, boundary: Boundary)

  /** The sign of x as a double: 1, -1 or 0. */
  function Sign(x: real): (s: real)
    ensures s == 1.0 || s == -1.0 || s == 0.0
    ensures s * x == Abs(x)
    ensures s == 0.0 <==> x == 0.0
  {
    if x > 0.0 then 1.0 else if x < 0.0 then -1.0 else 0.0
  }

  /** SET1, the unit step 0.5 (sign(x) + 1): 0 left of the origin, 1/2 at it, 1 right of it. */
  function Set1(x: real): (r: real)
    ensures x < 0.0 ==> r == 0.0
    ensures x == 0.0 ==> r == 0.5
    ensures x > 0.0 ==> r == 1.0
  {
    0.5 * (Sign(x) + 1.0)
  }

  /** The doc comment's "0.5 for x >= 0" does not hold right of the origin. */
  lemma Set1IsNotHalfRightOfOrigin()
    ensures Set1(1.0) != 0.5
  {
  }

  /** SET2, the Gaussian 0.5 exp(-x^2); the exponential is a parameter. */
  function Set2(exp: real -> real, x: real): real
  {
    0.5 * exp(-x * x)
  }

  /**
   * SET2 is even, peaks at 1/2 at the origin and stays in (0, 1/2], for any
   * exponential that is positive, 1 at 0 and non-decreasing.
   */
  lemma Set2Shape(exp: real -> real, x: real)
    requires exp(0.0) == 1.0
    requires forall y :: 0.0 < exp(y)
    requires forall y, z :: y <= z ==> exp(y) <= exp(z)
    ensures Set2(exp, x) == Set2(exp, -x)
    ensures Set2(exp, 0.0) == 0.5
    ensures 0.0 < Set2(exp, x) <= 0.5
  {
    assert -x * x == -(-x) * (-x);
    assert -x * x <= 0.0;
    assert exp(-x * x) <= exp(0.0);
  }

  /** Spacing dx = (x_max - x_min) / N (N converted to double). */
  function SpatialStep(input: Input): real
    requires input.n != 0
  {
    (input.xMax - input.xMin) / input.n as real
  }

  /** Time step dt = CFL dx / u. */
  function TimeStep(input: Input): real
    requires input.n != 0 && input.u != 0.0
  {
    input.cfl * SpatialStep(input) / input.u
  }

  /** The derived steps realise the requested Courant number: u dt / dx = CFL. */
  lemma DerivedStepsKeepCourant(input: Input)
    requires input.n != 0 && input.u != 0.0
    requires input.xMax != input.xMin
    ensures SpatialStep(input) != 0.0
    ensures input.u * TimeStep(input) / SpatialStep(input) == input.cfl
  {
    var dx := SpatialStep(input);
    assert dx * input.n as real == input.xMax - input.xMin;
    var dt := TimeStep(input);
    assert dt * input.u == input.cfl * dx;
  }

  // ---------------------------------------------------------------------------
  // The time loop `for (t = dt; t < T; t += dt)` under exact arithmetic
  // ---------------------------------------------------------------------------

  /**
   * k is the number of passes of the time loop with bound T: the k-th value
   * of the counter, k dt, is still below T and the next one is not.
   */
  ghost predicate IsStepCount(k: nat, T: real, dt: real)
  {
    (k == 0 || Tick(k, dt) < T) && T <= Tick(k + 1, dt)
  }

  /** The value of the time counter after j passes: dt added j times. */
  function Tick(j: nat, dt: real): real
  {
    if j == 0 then 0.0 else Tick(j - 1, dt) + dt
  }

  /** Under exact arithmetic the accumulated counter is j dt. */
  lemma {:induction false} TickIsProduct(j: nat, dt: real)
    ensures Tick(j, dt) == j as real * dt
  {
    if j > 0 {
      TickIsProduct(j - 1, dt);
      assert (j - 1) as real * dt + dt == j as real * dt;
    }
  }

  /** One more pass adds dt to the counter. */
  lemma NextTick(j: nat, dt: real)
    ensures Tick(j + 1, dt) == Tick(j, dt) + dt
  {
  }

  /** With a positive step the counter strictly increases with the number of passes. */
  lemma {:induction false} TickIncreasing(i: nat, j: nat, dt: real)
    requires dt > 0.0 && i < j
    ensures Tick(i, dt) < Tick(j, dt)
    decreases j
  {
    if i < j - 1 {
      TickIncreasing(i, j - 1, dt);
    }
  }

  /** With a positive step, m dt < K dt means m < K. */
  lemma FewerSteps(m: nat, K: nat, dt: real)
    requires dt > 0.0
    requires Tick(m, dt) < Tick(K, dt)
    ensures m < K
  {
    if K <= m {
      if K < m {
        TickIncreasing(K, m, dt);
      }
      assert false;
    }
  }

  /** Some multiple of a positive step reaches any bound (the loop terminates). */
  lemma Archimedes(T: real, dt: real) returns (K: nat)
    requires dt > 0.0
    ensures T <= Tick(K, dt)
  {
    if T <= 0.0 {
      K := 0;
    } else {
      var q := T / dt;
      K := q.Floor + 1;
      assert q < K as real;
      assert q * dt == T;
      assert (K as real - q) * dt > 0.0;
      TickIsProduct(K, dt);
    }
  }

  /** The step count is #{ j >= 1 : j dt < T }: exactly the indices 1..k pass the test. */
  lemma StepCountCounts(k: nat, T: real, dt: real)
    requires dt > 0.0
    requires IsStepCount(k, T, dt)
    ensures forall j: nat :: 1 <= j ==> (Tick(j, dt) < T <==> j <= k)
  {
    forall j: nat | 1 <= j
      ensures Tick(j, dt) < T <==> j <= k
    {
      if j < k {
        TickIncreasing(j, k, dt);
      } else if j > k + 1 {
        TickIncreasing(k + 1, j, dt);
      }
    }
  }

  /** The loop bound determines the step count. */
  lemma StepCountUnique(k1: nat, k2: nat, T: real, dt: real)
    requires dt > 0.0
    requires IsStepCount(k1, T, dt) && IsStepCount(k2, T, dt)
    ensures k1 == k2
  {
    StepCountCounts(k1, T, dt);
    StepCountCounts(k2, T, dt);
  }

  /**
   * Raising the bound by one step adds one pass when the bound is positive
   * (t < t_max + dt against t < t_max) and none otherwise.
   */
  lemma ShiftedBoundOneMoreStep(k: nat, T: real, dt: real)
    requires dt > 0.0
    requires IsStepCount(k, T, dt)
    ensures T > 0.0 ==> IsStepCount(k + 1, T + dt, dt)
    ensures T <= 0.0 ==> IsStepCount(0, T + dt, dt)
  {
    if T > 0.0 {
      assert Tick(k + 1, dt) == Tick(k, dt) + dt;
      assert Tick(k + 2, dt) == Tick(k + 1, dt) + dt;
    }
  }

  /** With dt <= 0 every counter value passes the test: a loop that starts never ends. */
  lemma {:induction false} NonPositiveStepNeverEnds(T: real, dt: real)
    requires dt <= 0.0 && dt < T
    ensures forall j: nat :: 1 <= j ==> Tick(j, dt) < T
  {
    forall j: nat | 1 <= j
      ensures Tick(j, dt) < T
    {
      TickIsProduct(j, dt);
      assert (j - 1) as real * dt <= 0.0;
    }
  }
}
