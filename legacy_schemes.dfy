/**
 * The two earlier snapshots of the scheme library (Explicit_Schemes.cpp and
 * Tools/Explicit_Schemes.cpp). Their difference operators, both FTBS forms
 * and the implicit FTBS pair are the formulas of Tools/Schemes.cpp character
 * for character and are the functions of module Schemes. What the snapshots
 * add is a Lax-Wendroff rule over a function of position and an implicit
 * FTBS rule that takes its left value from the previous time level.
 */
module LegacySchemes {
  import opened Schemes

  /** Lax-Wendroff over a function of position (the function-argument form). */
  function LaxWendroffAt(x: real, dx: real, dt: real, u: real, f: real -> real): real
    requires dx != 0.0
  {
    f(x) - (u * dt / (2.0 * dx)) * (f(x + dx) - f(x - dx))
      + (u * u * dt * dt / (2.0 * dx * dx)) * (f(x + dx) - 2.0 * f(x) + f(x - dx))
  }

  /** The function form maps a constant field to that constant. */
  lemma LaxWendroffAtKeepsConstant(x: real, dx: real, dt: real, u: real, f: real -> real, c: real)
    requires dx != 0.0
    requires f(x - dx) == c && f(x) == c && f(x + dx) == c
    ensures LaxWendroffAt(x, dx, dt, u, f) == c
  {
  }

  /**
   * Implicit FTBS of Tools/Explicit_Schemes.cpp: the value left of i is read
   * from the previous time level, p[i - 1], not from the level being built.
   */
  function IFtbsAlternativePrevRow(dx: real, dt: real, u: real, p: seq<real>, i: int): real
    requires u * dt + dx != 0.0
    requires 1 <= i < |p|
  {
    (u * dt * p[i - 1] + dx * p[i]) / (u * dt + dx)
  }

  /** It is the Tools/Schemes.cpp rule with lastPoint fixed to the previous level's p[i - 1]. */
  lemma PrevRowIsAlternativeWithOldLeft(dx: real, dt: real, u: real, p: seq<real>, i: int)
    requires u * dt + dx != 0.0
    requires 1 <= i < |p|
    ensures IFtbsAlternativePrevRow(dx, dt, u, p, i) == IFtbsAlternative(dx, dt, u, p[i - 1], p, i)
  {
  }

  /** It reads p only at i - 1 and i. */
  lemma PrevRowStencil(dx: real, dt: real, u: real, p: seq<real>, q: seq<real>, i: int)
    requires u * dt + dx != 0.0
    requires 1 <= i < |p| && i < |q|
    requires p[i - 1] == q[i - 1] && p[i] == q[i]
    ensures IFtbsAlternativePrevRow(dx, dt, u, p, i) == IFtbsAlternativePrevRow(dx, dt, u, q, i)
  {
  }

  // ---------------------------------------------------------------------------
  // Facts about the shared function-argument formulas, as the oldest snapshot states them
  // ---------------------------------------------------------------------------

  /** Explicit FTBS: without transport it returns f(x); on a constant field it returns the constant. */
  lemma FtbsStillAndConstant(x: real, dx: real, dt: real, u: real, f: real -> real, c: real)
    requires dx != 0.0
    ensures u * dt == 0.0 ==> Ftbs(x, dx, dt, u, f) == f(x)
    ensures f(x) == c && f(x - dx) == c ==> Ftbs(x, dx, dt, u, f) == c
  {
    if u * dt == 0.0 {
      assert Courant(dx, dt, u) == 0.0;
    }
  }

  /** Implicit FTBS is the average (f(x) + c f(x - dx)) / (1 + c) and keeps constants. */
  lemma ImplicitFtbsAverage(x: real, dx: real, dt: real, u: real, f: real -> real, c: real)
    requires dx != 0.0
    requires 1.0 + Courant(dx, dt, u) != 0.0
    ensures ImplicitFtbs(x, dx, dt, u, f) == Average(f(x - dx), f(x), Courant(dx, dt, u), 1.0)
    ensures f(x) == c && f(x - dx) == c ==> ImplicitFtbs(x, dx, dt, u, f) == c
  {
    var k := Courant(dx, dt, u);
    var s := f(x) + k * f(x - dx);
    assert (1.0 / (1.0 + k)) * s == s / (1.0 + k);
    assert s / (1.0 + k) == Average(f(x - dx), f(x), k, 1.0);
    if f(x) == c && f(x - dx) == c {
      assert s == c * (1.0 + k);
    }
  }

  /** For c >= 0 implicit FTBS lies between f(x - dx) and f(x). */
  lemma ImplicitFtbsBetween(x: real, dx: real, dt: real, u: real, f: real -> real)
    requires dx != 0.0
    requires Courant(dx, dt, u) >= 0.0
    ensures Min(f(x - dx), f(x)) <= ImplicitFtbs(x, dx, dt, u, f) <= Max(f(x - dx), f(x))
  {
    var k := Courant(dx, dt, u);
    ImplicitFtbsAverage(x, dx, dt, u, f, 0.0);
    AverageBetween(f(x - dx), f(x), k, 1.0);
  }
}
