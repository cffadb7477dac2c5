/**
 * The norm and resampling utilities of Tools/Norms.cpp: the L1, L2, L-infinity
 * and Lp norms of an error vector, the dispatch over a norm type, the norm
 * divided by the vector length, and linear interpolation of a vector onto a
 * new number of points. `long double` is modelled as `real`; the square root
 * and the power function are parameters.
 */
module Norms {
  import opened Schemes

  /** |v[0]| + ... + |v[n-1]|, accumulated from the left as the loop does. */
  function SumAbs(v: seq<real>): real
  {
    if |v| == 0 then 0.0 else SumAbs(v[..|v| - 1]) + Abs(v[|v| - 1])
  }

  /** The largest |v[i]|, starting from 0 as the loop does. */
  function MaxAbs(v: seq<real>): real
  {
    if |v| == 0 then 0.0 else Max(MaxAbs(v[..|v| - 1]), Abs(v[|v| - 1]))
  }

  /** v[0]^2 + ... + v[n-1]^2. */
  function SumSquares(v: seq<real>): real
  {
    if |v| == 0 then 0.0 else SumSquares(v[..|v| - 1]) + v[|v| - 1] * v[|v| - 1]
  }

  /** pow(|v[0]|, p) + ... + pow(|v[n-1]|, p). */
  function SumPowers(v: seq<real>, p: real, pow: (real, real) -> real): real
  {
    if |v| == 0 then 0.0 else SumPowers(v[..|v| - 1], p, pow) + pow(Abs(v[|v| - 1]), p)
  }

  // ---------------------------------------------------------------------------
  // The norm loops
  // ---------------------------------------------------------------------------

  /** L1 / Manhattan norm. */
  method L1(v: seq<real>) returns (sum: real)
    ensures sum == SumAbs(v)
  {
    sum := 0.0;
    var i := 0;
    while i < |v|
      invariant 0 <= i <= |v|
      invariant sum == SumAbs(v[..i])
    {
      assert v[..i + 1][..i] == v[..i];
      sum := sum + Abs(v[i]);
      i := i + 1;
    }
    assert v[..i] == v;
  }

  /** L2 / Euclidean norm: the square root of the sum of squares. */
  method L2(v: seq<real>, sqrt: real -> real) returns (r: real)
    ensures r == sqrt(SumSquares(v))
  {
    var sum := 0.0;
    var i := 0;
    while i < |v|
      invariant 0 <= i <= |v|
      invariant sum == SumSquares(v[..i])
    {
      assert v[..i + 1][..i] == v[..i];
      sum := sum + v[i] * v[i];
      i := i + 1;
    }
    assert v[..i] == v;
    r := sqrt(sum);
  }

  /** L-infinity / Chebyshev norm. */
  method LInf(v: seq<real>) returns (max: real)
    ensures max == MaxAbs(v)
  {
    max := 0.0;
    var i := 0;
    while i < |v|
      invariant 0 <= i <= |v|
      invariant max == MaxAbs(v[..i])
    {
      assert v[..i + 1][..i] == v[..i];
      max := Max(max, Abs(v[i]));
      i := i + 1;
    }
    assert v[..i] == v;
  }

  /** Lp norm: pow(sum of pow(|x|, p), 1 / p). */
  method Lp(v: seq<real>, p: real, pow: (real, real) -> real) returns (r: real)
    requires p != 0.0
    ensures r == pow(SumPowers(v, p, pow), 1.0 / p)
  {
    var sum := 0.0;
    var i := 0;
    while i < |v|
      invariant 0 <= i <= |v|
      invariant sum == SumPowers(v[..i], p, pow)
    {
      assert v[..i + 1][..i] == v[..i];
      sum := sum + pow(Abs(v[i]), p);
      i := i + 1;
    }
    assert v[..i] == v;
    r := pow(sum, 1.0 / p);
  }

  // ---------------------------------------------------------------------------
  // Facts about the norms
  // ---------------------------------------------------------------------------

  /** L1 is non-negative, and 0 for the empty vector. */
  lemma {:induction false} SumAbsNonNegative(v: seq<real>)
    ensures SumAbs(v) >= 0.0
    ensures |v| == 0 ==> SumAbs(v) == 0.0
  {
    if |v| > 0 {
      SumAbsNonNegative(v[..|v| - 1]);
    }
  }

  /** The argument of the square root in L2 is non-negative. */
  lemma {:induction false} SumSquaresNonNegative(v: seq<real>)
    ensures SumSquares(v) >= 0.0
  {
    if |v| > 0 {
      SumSquaresNonNegative(v[..|v| - 1]);
    }
  }

  /** L-infinity bounds every |v[i]| and is itself one of them when v is non-empty (0 otherwise). */
  lemma {:induction false} MaxAbsIsMaximum(v: seq<real>)
    ensures forall i :: 0 <= i < |v| ==> Abs(v[i]) <= MaxAbs(v)
    ensures |v| == 0 ==> MaxAbs(v) == 0.0
    ensures |v| > 0 ==> exists i :: 0 <= i < |v| && MaxAbs(v) == Abs(v[i])
  {
    if |v| > 0 {
      var front := v[..|v| - 1];
      MaxAbsIsMaximum(front);
      forall i | 0 <= i < |v|
        ensures Abs(v[i]) <= MaxAbs(v)
      {
        if i < |v| - 1 {
          assert v[i] == front[i];
        }
      }
      if |front| > 0 && MaxAbs(front) >= Abs(v[|v| - 1]) {
        var j :| 0 <= j < |front| && MaxAbs(front) == Abs(front[j]);
        assert v[j] == front[j];
      } else if |front| == 0 {
        assert MaxAbs(v) == Abs(v[0]);
      } else {
        assert MaxAbs(v) == Abs(v[|v| - 1]);
      }
    }
  }

  /** The largest entry is at most the sum: LInf(v) <= L1(v). */
  lemma {:induction false} MaxAbsAtMostSumAbs(v: seq<real>)
    ensures MaxAbs(v) <= SumAbs(v)
  {
    if |v| > 0 {
      var front := v[..|v| - 1];
      MaxAbsAtMostSumAbs(front);
      SumAbsNonNegative(front);
    }
  }

  /** The sum is at most n times the largest entry, so the mean |v[i]| is at most LInf(v). */
  lemma {:induction false} SumAbsAtMostCountTimesMax(v: seq<real>)
    ensures SumAbs(v) <= |v| as real * MaxAbs(v)
  {
    if |v| > 0 {
      var front := v[..|v| - 1];
      SumAbsAtMostCountTimesMax(front);
      CountStep(SumAbs(front), |front| as real, MaxAbs(front), MaxAbs(v), Abs(v[|v| - 1]));
      assert |v| as real == |front| as real + 1.0;
    }
  }

  /** One more entry a <= m on top of S <= k M with M <= m gives S + a <= (k + 1) m. */
  lemma CountStep(S: real, k: real, M: real, m: real, a: real)
    requires k >= 0.0 && S <= k * M && M <= m && a <= m
    ensures S + a <= (k + 1.0) * m
  {
    ScaleMonotone(k, M, m);
    assert (k + 1.0) * m == k * m + m;
  }

  // ---------------------------------------------------------------------------
  // Dispatch and normalisation
  // ---------------------------------------------------------------------------

  /**
   * The four norms calcNorm can dispatch to, and OutOfRange for any other value
   * of the underlying enum integer (one produced by a static_cast), which falls
   * into the switch's default arm.
   */
  datatype NormType = L1Norm | L2Norm | LInfNorm | LpNorm | OutOfRange

  /**
   * The value of the selected norm. The L1 and L-infinity norms are
   * non-negative, L-infinity is at most L1, both are 0 on the empty vector,
   * and an out-of-range selector gives 0.
   */
  function NormOf(v: seq<real>, t: NormType, p: real, sqrt: real -> real, pow: (real, real) -> real): (r: real)
    requires t == LpNorm ==> p != 0.0
    ensures (t == L1Norm || t == LInfNorm) ==> 0.0 <= r
    ensures t == LInfNorm ==> r <= SumAbs(v)
    ensures (t == L1Norm || t == LInfNorm) && |v| == 0 ==> r == 0.0
    ensures t == OutOfRange ==> r == 0.0
  {
    SumAbsNonNegative(v);
    MaxAbsIsMaximum(v);
    MaxAbsAtMostSumAbs(v);
    assert |v| > 0 ==> Abs(v[0]) <= MaxAbs(v);
    match t
    case L1Norm => SumAbs(v)
    case L2Norm => sqrt(SumSquares(v))
    case LInfNorm => MaxAbs(v)
    case LpNorm => pow(SumPowers(v, p, pow), 1.0 / p)
    case OutOfRange => 0.0
  }

  /** calcNorm: the norm selected by t (p defaults to 2 in the source). */
  method CalcNorm(v: seq<real>, t: NormType, p: real, sqrt: real -> real, pow: (real, real) -> real) returns (r: real)
    requires t == LpNorm ==> p != 0.0
    ensures r == NormOf(v, t, p, sqrt, pow)
    ensures t == L1Norm ==> r == SumAbs(v)
    ensures t == LInfNorm ==> r == MaxAbs(v)
    ensures t == OutOfRange ==> r == 0.0
  {
    match t {
      case L1Norm => r := L1(v);
      case L2Norm => r := L2(v, sqrt);
      case LInfNorm => r := LInf(v);
      case LpNorm => r := Lp(v, p, pow);
      case OutOfRange => r := 0.0;
    }
  }

  /** Normalize: the selected norm divided by the number of entries. */
  method Normalize(v: seq<real>, t: NormType, p: real, sqrt: real -> real, pow: (real, real) -> real) returns (r: real)
    requires |v| > 0
    requires t == LpNorm ==> p != 0.0
    ensures r == NormOf(v, t, p, sqrt, pow) / |v| as real
  {
    var norm := CalcNorm(v, t, p, sqrt, pow);
    r := norm / |v| as real;
  }

  /** The normalised L1 norm (the mean |v[i]|) lies between 0 and LInf(v). */
  lemma MeanAbsWithinMax(v: seq<real>)
    requires |v| > 0
    ensures 0.0 <= SumAbs(v) / |v| as real <= MaxAbs(v)
  {
    SumAbsNonNegative(v);
    SumAbsAtMostCountTimesMax(v);
    DivideBound(SumAbs(v), |v| as real, MaxAbs(v));
  }

  /** 0 <= S <= n M with n > 0 gives 0 <= S / n <= M. */
  lemma DivideBound(S: real, n: real, M: real)
    requires n > 0.0 && 0.0 <= S <= n * M
    ensures 0.0 <= S / n <= M
  {
    var q := S / n;
    assert q * n == S;
    if q > M {
      assert (q - M) * n > 0.0;
    }
  }

  // ---------------------------------------------------------------------------
  // interpolate
  // ---------------------------------------------------------------------------

  /** The size_t arguments interpolate handles: no point at all, or two or more points from a non-empty vector. */
  predicate Resamplable(len: int, n: int)
  {
    n == 0 || (n >= 2 && len >= 1)
  }

  /** The sampling position of output i: i (|v| - 1) / (n - 1). */
  function Position(len: int, n: int, i: int): real
    requires n >= 2
  {
    i as real * ((len - 1) as real / (n - 1) as real)
  }

  /** Positions of outputs 0 .. n-1 lie in [0, |v| - 1]; the last is |v| - 1 exactly. */
  lemma PositionInRange(len: int, n: int, i: int)
    requires n >= 2 && len >= 1
    requires 0 <= i < n
    ensures 0.0 <= Position(len, n, i) <= (len - 1) as real
    ensures i == n - 1 ==> Position(len, n, i) == (len - 1) as real
  {
    var s := (len - 1) as real / (n - 1) as real;
    assert s * (n - 1) as real == (len - 1) as real;
    assert s >= 0.0;
    assert (n - 1 - i) as real * s >= 0.0;
  }

  /** The left neighbour: the truncating size_t cast of a non-negative position. */
  function LeftIndex(len: int, n: int, i: int): (left: int)
    requires n >= 2 && len >= 1
    requires 0 <= i < n
    ensures 0 <= left < len
    ensures left as real <= Position(len, n, i) < left as real + 1.0
  {
    PositionInRange(len, n, i);
    Position(len, n, i).Floor
  }

  /** Output i: v[left] (1 - w) + v[right] w with right = min(left + 1, |v| - 1) and w = pos - left. */
  function Sample(v: seq<real>, n: int, i: int): real
    requires n >= 2 && |v| >= 1
    requires 0 <= i < n
  {
    var left := LeftIndex(|v|, n, i);
    var right := if left + 1 < |v| - 1 then left + 1 else |v| - 1;
    var w := Position(|v|, n, i) - left as real;
    v[left] * (1.0 - w) + v[right] * w
  }

  /** The interpolated vector of n outputs. */
  function Interpolated(v: seq<real>, n: int): seq<real>
    requires Resamplable(|v|, n)
  {
    if n == 0 then [] else seq(n, i requires 0 <= i < n => Sample(v, n, i))
  }

  /** interpolate: fills a result vector of n entries in one loop. */
  method Interpolate(v: seq<real>, n: int) returns (result: seq<real>)
    requires Resamplable(|v|, n)
    ensures result == Interpolated(v, n)
    ensures |result| == n
  {
    var a := new real[n];
    var i := 0;
    while i < n
      invariant 0 <= i <= n
      invariant forall j :: 0 <= j < i ==> a[j] == Interpolated(v, n)[j]
    {
      a[i] := Sample(v, n, i);
      i := i + 1;
    }
    result := a[..];
  }

  /** Each output is a convex combination of two neighbours, with weight in [0, 1), and lies between them. */
  lemma SampleBetween(v: seq<real>, n: int, i: int)
    requires n >= 2 && |v| >= 1
    requires 0 <= i < n
    ensures var left := LeftIndex(|v|, n, i);
            var right := if left + 1 < |v| - 1 then left + 1 else |v| - 1;
            var w := Position(|v|, n, i) - left as real;
            0.0 <= w < 1.0 &&
            Sample(v, n, i) == v[left] * (1.0 - w) + v[right] * w &&
            Min(v[left], v[right]) <= Sample(v, n, i) <= Max(v[left], v[right])
  {
    var left := LeftIndex(|v|, n, i);
    var right := if left + 1 < |v| - 1 then left + 1 else |v| - 1;
    var a, b, w := v[left], v[right], Position(|v|, n, i) - left as real;
    // the weighted form a (1 - w) + b w is the blend from a towards b by w
    BlendBetween(b, a, w);
    assert a * (1.0 - w) + b * w == a - w * (a - b);
    assert Min(b, a) == Min(a, b) && Max(b, a) == Max(a, b);
  }

  /** An output whose position falls exactly on grid point k is v[k]. */
  lemma SampleOnPoint(v: seq<real>, n: int, i: int, k: int)
    requires n >= 2 && |v| >= 1
    requires 0 <= i < n && 0 <= k < |v|
    requires Position(|v|, n, i) == k as real
    ensures Sample(v, n, i) == v[k]
  {
    assert LeftIndex(|v|, n, i) == k;
  }

  /** The first and last outputs are the first and last entries of v. */
  lemma InterpolatedEnds(v: seq<real>, n: int)
    requires n >= 2 && |v| >= 1
    ensures Interpolated(v, n)[0] == v[0]
    ensures Interpolated(v, n)[n - 1] == v[|v| - 1]
  {
    PositionInRange(|v|, n, n - 1);
    SampleOnPoint(v, n, n - 1, |v| - 1);
    assert Position(|v|, n, 0) == 0.0;
    SampleOnPoint(v, n, 0, 0);
  }

  /** Resampling onto the same number of points (at least two) returns v. */
  lemma InterpolatedIdentity(v: seq<real>)
    requires |v| >= 2
    ensures Interpolated(v, |v|) == v
  {
    var n := |v|;
    assert (n - 1) as real / (n - 1) as real == 1.0;
    forall i | 0 <= i < n
      ensures Interpolated(v, n)[i] == v[i]
    {
      assert Position(n, n, i) == i as real;
      SampleOnPoint(v, n, i, i);
    }
  }
}
