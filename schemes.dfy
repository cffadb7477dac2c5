/**
 * The scheme library: finite-difference operators and the update rules of the
 * 1-D linear advection solver (Tools/Schemes.cpp). Every rule is a single
 * arithmetic expression over the grid spacing `dx`, the time step `dt`, the
 * advection velocity `u` and either a function of position (the
 * function-argument forms) or the previous time level as a sequence (the
 * array forms). Doubles are modelled as exact reals.
 *
 * The array forms of the source also take the position `x`, which none of
 * them reads; the parameter is dropped here.
 */
module Schemes {

  /** Courant number u*dt/dx, the factor every update rule is built from. */
  function Courant(dx: real, dt: real, u: real): real
    requires dx != 0.0
  {
    u * dt / dx
  }

  function Abs(x: real): real { if x < 0.0 then -x else x }

  function Min(a: real, b: real): real { if a <= b then a else b }
  function Max(a: real, b: real): real { if a <= b then b else a }

  /** Scaling a non-negative amount by a factor in [0, 1] does not enlarge it. */
  lemma ScaleWithin(c: real, d: real)
    requires 0.0 <= c <= 1.0 && 0.0 <= d
    ensures 0.0 <= c * d <= d
  {
  }

  /** Scaling a non-positive amount by a factor in [0, 1] does not enlarge its magnitude. */
  lemma ScaleWithinNegative(c: real, d: real)
    requires 0.0 <= c <= 1.0 && d <= 0.0
    ensures d <= c * d <= 0.0
  {
    ScaleWithin(c, -d);
    assert c * (-d) == -(c * d);
  }

  /** Moving from b towards a by a fraction c in [0, 1] stays between a and b. */
  lemma BlendBetween(a: real, b: real, c: real)
    requires 0.0 <= c <= 1.0
    ensures Min(a, b) <= b - c * (b - a) <= Max(a, b)
  {
    var d := b - a;
    var cd := c * d;
    if a <= b {
      ScaleWithin(c, d);
    } else {
      ScaleWithinNegative(c, d);
    }
    assert b - c * (b - a) == b - cd;
  }

  /** Multiplying by a non-negative factor keeps an inequality. */
  lemma ScaleMonotone(k: real, a: real, b: real)
    requires k >= 0.0 && a <= b
    ensures k * a <= k * b
  {
  }

  /** Multiplication distributes over a sum of weights. */
  lemma Distribute(a: real, x: real, y: real)
    ensures a * (x + y) == x * a + y * a
  {
  }

  /** Dividing by a nonzero number and multiplying back is the identity. */
  lemma DivideTimes(n: real, w: real)
    requires w != 0.0
    ensures (n / w) * w == n
  {
  }

  /** Dividing by a positive number keeps an inequality between products. */
  lemma CancelPositive(a: real, b: real, w: real)
    requires w > 0.0 && a * w <= b * w
    ensures a <= b
  {
  }

  /** The weighted average of a and b with weights wa and wb. */
  function Average(a: real, b: real, wa: real, wb: real): real
    requires wa + wb != 0.0
  {
    (wa * a + wb * b) / (wa + wb)
  }

  /** A weighted average of lo <= hi with non-negative weights lies in [lo, hi]. */
  lemma AverageOrdered(lo: real, hi: real, wl: real, wh: real)
    requires lo <= hi
    requires wl >= 0.0 && wh >= 0.0 && wl + wh > 0.0
    ensures lo <= Average(lo, hi, wl, wh) <= hi
  {
    var w := wl + wh;
    var n := wl * lo + wh * hi;
    var q := Average(lo, hi, wl, wh);
    DivideTimes(n, w);
    assert q * w == n;
    ScaleMonotone(wh, lo, hi);
    ScaleMonotone(wl, lo, hi);
    Distribute(lo, wl, wh);
    Distribute(hi, wl, wh);
    assert lo * w == wl * lo + wh * lo <= n;
    assert n <= wl * hi + wh * hi == hi * w;
    CancelPositive(lo, q, w);
    CancelPositive(q, hi, w);
  }

  /** A weighted average with weights wa >= 0 and wb > 0 lies between a and b. */
  lemma AverageBetween(a: real, b: real, wa: real, wb: real)
    requires wa >= 0.0 && wb > 0.0
    ensures Min(a, b) <= Average(a, b, wa, wb) <= Max(a, b)
  {
    if a <= b {
      AverageOrdered(a, b, wa, wb);
    } else {
      AverageOrdered(b, a, wb, wa);
      assert Average(b, a, wb, wa) == Average(a, b, wa, wb);
    }
  }

  // ---------------------------------------------------------------------------
  // Difference operators (Explicit_Schemes, function-argument forms)
  // ---------------------------------------------------------------------------

  /** Forward difference (f(x + dx) - f(x)) / dx. */
  function ForwardDiff(x: real, dx: real, f: real -> real): real
    requires dx != 0.0
  {
    (f(x + dx) - f(x)) / dx
  }

  /** Backward difference (f(x) - f(x - dx)) / dx. */
  function BackwardDiff(x: real, dx: real, f: real -> real): real
    requires dx != 0.0
  {
    (f(x) - f(x - dx)) / dx
  }

  /** Central difference (f(x + dx) - f(x - dx)) / (2 dx). */
  function CentralDiff(x: real, dx: real, f: real -> real): real
    requires dx != 0.0
  {
    (f(x + dx) - f(x - dx)) / (2.0 * dx)
  }

  /** The central difference is the mean of the two one-sided differences. */
  lemma CentralIsMeanOfOneSided(x: real, dx: real, f: real -> real)
    requires dx != 0.0
    ensures CentralDiff(x, dx, f) == (ForwardDiff(x, dx, f) + BackwardDiff(x, dx, f)) / 2.0
  {
  }

  // ---------------------------------------------------------------------------
  // Explicit FTBS (forward time, backward space)
  // ---------------------------------------------------------------------------

  /** Explicit FTBS over a function of position: f(x) - c (f(x) - f(x - dx)). */
  function Ftbs(x: real, dx: real, dt: real, u: real, f: real -> real): real
    requires dx != 0.0
  {
    f(x) - Courant(dx, dt, u) * (f(x) - f(x - dx))
  }

  /** FTBS is one forward-Euler step of f_t = -u f_x with the upwind derivative. */
  lemma FtbsIsUpwindEulerStep(x: real, dx: real, dt: real, u: real, f: real -> real)
    requires dx != 0.0
    ensures Ftbs(x, dx, dt, u, f) == f(x) - u * dt * BackwardDiff(x, dx, f)
  {
  }

  /**
   * Explicit FTBS over the previous time level `p` at grid index `i`. The
   * rule reads p[i] and p[i - 1], so the index must be in [1, |p|). The
   * value is the blend (1 - c) p[i] + c p[i - 1] of the two upwind values.
   */
  function FtbsAlternative(dx: real, dt: real, u: real, p: seq<real>, i: int): (r: real)
    requires dx != 0.0
    requires 1 <= i < |p|
    ensures r == (1.0 - Courant(dx, dt, u)) * p[i] + Courant(dx, dt, u) * p[i - 1]
  {
    p[i] - Courant(dx, dt, u) * (p[i] - p[i - 1])
  }

  /** Under the CFL condition 0 <= c <= 1 the FTBS value lies between its two inputs. */
  lemma FtbsAlternativeBetween(dx: real, dt: real, u: real, p: seq<real>, i: int)
    requires dx != 0.0
    requires 1 <= i < |p|
    requires 0.0 <= Courant(dx, dt, u) <= 1.0
    ensures Min(p[i - 1], p[i]) <= FtbsAlternative(dx, dt, u, p, i) <= Max(p[i - 1], p[i])
  {
    BlendBetween(p[i - 1], p[i], Courant(dx, dt, u));
  }

  /** Position of grid index j on the grid that starts at x0 with spacing dx. */
  function GridX(x0: real, dx: real, j: int): real
  {
    x0 + j as real * dx
  }

  /** One grid step to the left of index j is index j - 1. */
  lemma GridXStepLeft(x0: real, dx: real, j: int)
    ensures GridX(x0, dx, j) - dx == GridX(x0, dx, j - 1)
  {
  }

  /** A row holds the samples of f on the grid x0 + j dx. */
  ghost predicate SamplesOf(p: seq<real>, x0: real, dx: real, f: real -> real)
  {
    forall j :: 0 <= j < |p| ==> p[j] == f(GridX(x0, dx, j))
  }

  /** The array form agrees with the function form on a sampled row. */
  lemma FtbsAlternativeAgreesWithFtbs(x0: real, dx: real, dt: real, u: real, f: real -> real, p: seq<real>, i: int)
    requires dx != 0.0
    requires 1 <= i < |p|
    requires SamplesOf(p, x0, dx, f)
    ensures FtbsAlternative(dx, dt, u, p, i) == Ftbs(GridX(x0, dx, i), dx, dt, u, f)
  {
    assert p[i] == f(GridX(x0, dx, i));
    assert p[i - 1] == f(GridX(x0, dx, i - 1));
    GridXStepLeft(x0, dx, i);
  }

  // ---------------------------------------------------------------------------
  // Lax-Wendroff
  // ---------------------------------------------------------------------------

  /**
   * Second-order Lax-Wendroff rule at index `i` of the previous level `p`; it
   * reads p[i - 1], p[i] and p[i + 1], so it needs 1 <= i <= |p| - 2.
   */
  function LaxWendroff(dx: real, dt: real, u: real, p: seq<real>, i: int): real
    requires dx != 0.0
    requires 1 <= i && i + 1 < |p|
  {
    p[i] - (u * dt / (2.0 * dx)) * (p[i + 1] - p[i - 1])
      + (u * u * dt * dt / (dx * dx)) * 0.5 * (p[i + 1] - 2.0 * p[i] + p[i - 1])
  }

  /** Lax-Wendroff reads nothing of `p` but its three-point stencil around i. */
  lemma LaxWendroffStencil(dx: real, dt: real, u: real, p: seq<real>, q: seq<real>, i: int)
    requires dx != 0.0
    requires 1 <= i && i + 1 < |p| && i + 1 < |q|
    requires p[i - 1] == q[i - 1] && p[i] == q[i] && p[i + 1] == q[i + 1]
    ensures LaxWendroff(dx, dt, u, p, i) == LaxWendroff(dx, dt, u, q, i)
  {
  }

  /** Lax-Wendroff maps a constant row to that constant. */
  lemma LaxWendroffKeepsConstant(dx: real, dt: real, u: real, p: seq<real>, i: int, c: real)
    requires dx != 0.0
    requires 1 <= i && i + 1 < |p|
    requires p[i - 1] == c && p[i] == c && p[i + 1] == c
    ensures LaxWendroff(dx, dt, u, p, i) == c
  {
  }

  // ---------------------------------------------------------------------------
  // Implicit FTBS
  // ---------------------------------------------------------------------------

  /** Implicit FTBS as written with the Courant number: (f(x) + c f(x - dx)) / (1 + c). */
  function ImplicitFtbs(x: real, dx: real, dt: real, u: real, f: real -> real): real
    requires dx != 0.0
    requires 1.0 + Courant(dx, dt, u) != 0.0
  {
    1.0 / (1.0 + Courant(dx, dt, u)) * (f(x) + Courant(dx, dt, u) * f(x - dx))
  }

  /** Implicit FTBS as a weighted average: (u dt f(x - dx) + dx f(x)) / (u dt + dx). */
  function IFtbs(x: real, dx: real, dt: real, u: real, f: real -> real): real
    requires u * dt + dx != 0.0
  {
    (u * dt * f(x - dx) + dx * f(x)) / (u * dt + dx)
  }

  /** The two implicit forms are the same rule wherever both are defined. */
  lemma ImplicitFormsAgree(x: real, dx: real, dt: real, u: real, f: real -> real)
    requires dx != 0.0
    requires u * dt + dx != 0.0
    ensures 1.0 + Courant(dx, dt, u) != 0.0
    ensures ImplicitFtbs(x, dx, dt, u, f) == IFtbs(x, dx, dt, u, f)
  {
    var c, w := Courant(dx, dt, u), u * dt + dx;
    assert c * dx == u * dt;
    assert (1.0 + c) * dx == w;
    var k, s := 1.0 / (1.0 + c), f(x) + c * f(x - dx);
    assert k * (1.0 + c) == 1.0;
    assert (k * s) * w == s * dx == u * dt * f(x - dx) + dx * f(x);
    assert IFtbs(x, dx, dt, u, f) * w == u * dt * f(x - dx) + dx * f(x);
  }

  /**
   * Implicit FTBS over the previous level `p`, with the value to the left
   * supplied by the caller as `lastPoint`. Of `p` it reads index i only.
   */
  function IFtbsAlternative(dx: real, dt: real, u: real, lastPoint: real, p: seq<real>, i: int): real
    requires u * dt + dx != 0.0
    requires 0 <= i < |p|
  {
    (u * dt * lastPoint + dx * p[i]) / (u * dt + dx)
  }

  /** The implicit value weighs lastPoint by u dt and p[i] by dx. */
  lemma IFtbsAlternativeIsAverage(dx: real, dt: real, u: real, lastPoint: real, p: seq<real>, i: int)
    requires u * dt + dx != 0.0
    requires 0 <= i < |p|
    ensures IFtbsAlternative(dx, dt, u, lastPoint, p, i) == Average(lastPoint, p[i], u * dt, dx)
  {
  }

  /** With u dt > 0 and dx > 0 the implicit value is a proper average of lastPoint and p[i]. */
  lemma IFtbsAlternativeBetween(dx: real, dt: real, u: real, lastPoint: real, p: seq<real>, i: int)
    requires u * dt > 0.0 && dx > 0.0
    requires 0 <= i < |p|
    ensures Min(lastPoint, p[i]) <= IFtbsAlternative(dx, dt, u, lastPoint, p, i) <= Max(lastPoint, p[i])
  {
    IFtbsAlternativeIsAverage(dx, dt, u, lastPoint, p, i);
    AverageBetween(lastPoint, p[i], u * dt, dx);
  }

  /** Of the previous level the implicit rule reads index i only. */
  lemma IFtbsAlternativeReadsOnlyI(dx: real, dt: real, u: real, lastPoint: real, p: seq<real>, q: seq<real>, i: int)
    requires u * dt + dx != 0.0
    requires 0 <= i < |p| && i < |q| && p[i] == q[i]
    ensures IFtbsAlternative(dx, dt, u, lastPoint, p, i) == IFtbsAlternative(dx, dt, u, lastPoint, q, i)
  {
  }

  /** On a sampled row, with lastPoint the sample left of i, it is the function form I_FTBS. */
  lemma IFtbsAlternativeAgreesWithIFtbs(x0: real, dx: real, dt: real, u: real, f: real -> real, p: seq<real>, i: int)
    requires u * dt + dx != 0.0
    requires 1 <= i < |p|
    requires SamplesOf(p, x0, dx, f)
    ensures IFtbsAlternative(dx, dt, u, p[i - 1], p, i) == IFtbs(GridX(x0, dx, i), dx, dt, u, f)
  {
    assert p[i] == f(GridX(x0, dx, i));
    assert p[i - 1] == f(GridX(x0, dx, i - 1));
    GridXStepLeft(x0, dx, i);
  }

  // ---------------------------------------------------------------------------
  // Richtmyer two-step scheme
  // ---------------------------------------------------------------------------

  /** Richtmyer predictor: mean of the neighbours minus c/4 times their difference. */
  function RichtmyerPrediction(dx: real, dt: real, u: real, p: seq<real>, i: int): real
    requires dx != 0.0
    requires 1 <= i && i + 1 < |p|
  {
    0.5 * (p[i + 1] + p[i - 1]) - Courant(dx, dt, u) * 0.25 * (p[i + 1] - p[i - 1])
  }

  /** Richtmyer corrector: p[i] minus c/2 times the spread of the predicted neighbours. */
  function RichtmyerCorrection(dx: real, dt: real, u: real, p: seq<real>, half: seq<real>, i: int): real
    requires dx != 0.0
    requires 0 <= i < |p|
    requires 1 <= i && i + 1 < |half|
  {
    p[i] - Courant(dx, dt, u) * 0.5 * (half[i + 1] - half[i - 1])
  }

  /** The predictor maps a constant row to that constant. */
  lemma RichtmyerPredictionKeepsConstant(dx: real, dt: real, u: real, p: seq<real>, i: int, c: real)
    requires dx != 0.0
    requires 1 <= i && i + 1 < |p|
    requires p[i - 1] == c && p[i + 1] == c
    ensures RichtmyerPrediction(dx, dt, u, p, i) == c
  {
  }

  /** The corrector leaves p[i] alone exactly when the predicted neighbours are equal (u dt != 0). */
  lemma RichtmyerCorrectionFlat(dx: real, dt: real, u: real, p: seq<real>, half: seq<real>, i: int)
    requires dx != 0.0
    requires 0 <= i < |p|
    requires 1 <= i && i + 1 < |half|
    ensures half[i + 1] == half[i - 1] ==> RichtmyerCorrection(dx, dt, u, p, half, i) == p[i]
    ensures u * dt != 0.0 && RichtmyerCorrection(dx, dt, u, p, half, i) == p[i] ==> half[i + 1] == half[i - 1]
  {
    if u * dt != 0.0 && RichtmyerCorrection(dx, dt, u, p, half, i) == p[i] {
      assert Courant(dx, dt, u) != 0.0;
      assert Courant(dx, dt, u) * (half[i + 1] - half[i - 1]) == 0.0;
    }
  }
}
