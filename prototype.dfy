/**
 * The first prototype of the solver (main.cpp): the same records with the
 * duration and point count as doubles, `sign`, SET1 and SET2 as written there,
 * a solver object with two constructors and `changeInput`, and solve methods
 * that are still empty.
 */
module Prototype {
  import Grid

  /** The prototype's run description: t_max and N are doubles here. */
  datatype Input = Input(u: real, len: real, xMin: real, xMax: real, tMax: real, n: real, cfl: real, boundary: Grid.Boundary)

  /** The schemes the prototype's `solve` is meant to dispatch over. */
  datatype Scheme = EFtbs | IFtbs | LaxWendroff | RichtmyerMultiStep | All

  /** The sign of x: the prototype's `sign` is the one of module Grid. */
  function Sign(x: real): (s: real)
    ensures s == Grid.Sign(x)
    ensures x > 0.0 ==> s == 1.0
    ensures x < 0.0 ==> s == -1.0
  {
    if x > 0.0 then 1.0 else if x < 0.0 then -1.0 else 0.0
  }

  /** The C++ value of the int expression 1/2: integer division truncates it to 0. */
  function IntHalf(): int
  {
    1 / 2
  }

  /** SET1 as written: 1/2 * (sign(x) + 1), with 1/2 an int division. It is 0 everywhere. */
  function Set1AsWritten(x: real): (r: real)
    ensures r == 0.0
  {
    IntHalf() as real * (Sign(x) + 1.0)
  }

  /** Right of the origin the written SET1 is 0 where the unit step is 1. */
  lemma Set1AsWrittenLosesStep()
    ensures Set1AsWritten(1.0) == 0.0 && Grid.Set1(1.0) == 1.0
  {
  }

  /** SET2 as written: 1/2 * exp(pow(-x, 2)), again 0 everywhere (and with the exponent's sign flipped). */
  function Set2AsWritten(exp: real -> real, x: real): (r: real)
    ensures r == 0.0
  {
    IntHalf() as real * exp((-x) * (-x))
  }

  /** At the origin the written SET2 is 0 where the Gaussian is 1/2. */
  lemma Set2AsWrittenLosesPeak(exp: real -> real)
    requires exp(0.0) == 1.0
    ensures Set2AsWritten(exp, 0.0) == 0.0 && Grid.Set2(exp, 0.0) == 0.5
  {
  }

  /** dx = (x_max - x_min) / N. */
  function SpatialStep(input: Input): real
    requires input.n != 0.0
  {
    (input.xMax - input.xMin) / input.n
  }

  /** dt = CFL dx / u. */
  function TimeStep(input: Input): real
    requires input.n != 0.0 && input.u != 0.0
  {
    input.cfl * SpatialStep(input) / input.u
  }

  /**
   * With a whole point count the prototype derives the same dx and dt as the
   * solver of module Grid, so on a non-empty domain u dt / dx is the CFL number.
   */
  lemma StepsAgreeWithSolver(input: Input, n: int)
    requires input.n == n as real && n != 0 && input.u != 0.0
    ensures var solver := Grid.Input(input.u, input.len, input.xMin, input.xMax, input.tMax.Floor, n, input.cfl, input.boundary);
            SpatialStep(input) == Grid.SpatialStep(solver) && TimeStep(input) == Grid.TimeStep(solver)
    ensures input.xMax != input.xMin ==> input.u * TimeStep(input) / SpatialStep(input) == input.cfl
  {
    var solver := Grid.Input(input.u, input.len, input.xMin, input.xMax, input.tMax.Floor, n, input.cfl, input.boundary);
    if input.xMax != input.xMin {
      Grid.DerivedStepsKeepCourant(solver);
    }
  }

  /** The prototype solver: public dt and dx, private input. */
  class WaveEquationSolver {
    var dt: real
    var dx: real
    var input: Input

    /** The steps are derived from the stored input. */
    ghost predicate Valid()
      reads this
    {
      input.n != 0.0 && input.u != 0.0 && dx == SpatialStep(input) && dt == TimeStep(input)
    }

    /** Construction from an Input record. */
    constructor FromInput(input: Input)
      requires input.n != 0.0 && input.u != 0.0
      ensures Valid() && this.input == input
    {
      this.input := input;
      dx := SpatialStep(input);
      dt := TimeStep(input);
    }

    /** Construction field by field: the record is assembled in declaration order. */
    constructor FromFields(u: real, len: real, xMin: real, xMax: real, tMax: real, n: real, cfl: real, boundary: Grid.Boundary)
      requires n != 0.0 && u != 0.0
      ensures Valid() && input == Input(u, len, xMin, xMax, tMax, n, cfl, boundary)
    {
      input := Input(u, len, xMin, xMax, tMax, n, cfl, boundary);
      var spacing := (xMax - xMin) / n;
      dx := spacing;
      dt := cfl * spacing / u;
    }

    /** Replaces the input wholesale and recomputes dx and dt from it alone. */
    method ChangeInput(input: Input)
      requires input.n != 0.0 && input.u != 0.0
      modifies this
      ensures Valid() && this.input == input
    {
      this.input := input;
      dx := SpatialStep(input);
      dt := TimeStep(input);
    }

    /** The empty `solve(scheme, filename)`. */
    method Solve(scheme: Scheme)
      ensures unchanged(this)
    {
    }

    /** The empty `solve_E_FTBS`. */
    method SolveEFtbs()
      ensures unchanged(this)
    {
    }

    /** The empty `solve_I_FTBS`. */
    method SolveIFtbs()
      ensures unchanged(this)
    {
    }

    /** The empty `solve_Lax_Wendroff`. */
    method SolveLaxWendroff()
      ensures unchanged(this)
    {
    }

    /** The empty `solve_Richtmyer_MultiStep`. */
    method SolveRichtmyerMultiStep()
      ensures unchanged(this)
    {
    }

    /** The empty `solve_All`. */
    method SolveAll()
      ensures unchanged(this)
    {
    }
  }

  /**
   * The two constructors agree, and changeInput leaves a solver in the state
   * a fresh construction from the new input has, whatever it held before;
   * applying it a second time changes nothing.
   */
  method ConstructionAgrees(first: Input, second: Input)
    requires first.n != 0.0 && first.u != 0.0
    requires second.n != 0.0 && second.u != 0.0
  {
    var a := new WaveEquationSolver.FromInput(second);
    var b := new WaveEquationSolver.FromFields(second.u, second.len, second.xMin, second.xMax,
                                               second.tMax, second.n, second.cfl, second.boundary);
    assert a.input == b.input && a.dx == b.dx && a.dt == b.dt;

    var c := new WaveEquationSolver.FromInput(first);
    c.ChangeInput(second);
    assert c.input == a.input && c.dx == a.dx && c.dt == a.dt;

    c.ChangeInput(second);
    assert c.input == a.input && c.dx == a.dx && c.dt == a.dt;
  }
}
