/** Natural cubic spline interpolation.

    Whatever the solver returns, the pieces meet in every knot and their second derivatives agree;
    the first derivative is continuous exactly where the solver's residual vanishes. */
module Spline {
  import opened Wrappers
  import opened Scalars
  import opened InterpolationUtils
  import opened Tridiagonal

  // ----- the linear system -----

  function H(keys: seq<real>, i: nat): real
    requires i + 1 < |keys|
  {
    keys[i + 1] - keys[i]
  }

  lemma HPositive(keys: seq<real>, i: nat)
    requires Increasing(keys) && i + 1 < |keys|
    ensures H(keys, i) > 0.0
  {
  }

  lemma HNonzero(keys: seq<real>, i: nat)
    requires Separated(keys) && i + 1 < |keys|
    ensures H(keys, i) != 0.0
  {
  }

  /** The slope of the values over piece i. */
  function Slope(keys: seq<real>, values: seq<real>, i: nat): real
    requires Separated(keys) && |keys| == |values| && i + 1 < |keys|
  {
    HNonzero(keys, i);
    (values[i + 1] - values[i]) / H(keys, i)
  }

  function SystemOf(keys: seq<real>): (s: System)
    requires |keys| >= 3
    ensures s.Shaped() && s.N() == |keys| - 2
  {
    var n := |keys| - 2;
    System(seq(n - 1, i requires 0 <= i < n - 1 => H(keys, i + 1)),
           seq(n, i requires 0 <= i < n => 2.0 * (H(keys, i) + H(keys, i + 1))),
           seq(n - 1, i requires 0 <= i < n - 1 => H(keys, i + 1)))
  }

  function RightSide(keys: seq<real>, values: seq<real>): (d: seq<real>)
    requires Separated(keys) && |keys| == |values| >= 3
    ensures |d| == |keys| - 2
  {
    seq(|keys| - 2, i requires 0 <= i < |keys| - 2 =>
      6.0 * (Slope(keys, values, i + 1) - Slope(keys, values, i)))
  }

  /** For increasing keys every pivot is positive because -1 < p <= 0 is kept by the sweep. */
  lemma {:induction false} PivotPositive(keys: seq<real>, i: nat)
    requires Increasing(keys) && |keys| >= 3 && i < |keys| - 2
    ensures Den(SystemOf(keys), i) > H(keys, i) && Den(SystemOf(keys), i) > 0.0
    ensures -1.0 < P(SystemOf(keys), i) <= 0.0
  {
    hide Ratio, H, Den, P, SystemOf, Increasing;
    HPositive(keys, i);
    HPositive(keys, i + 1);
    SplineRow(keys, i);
    if i == 0 {
      FractionBound(if |keys| == 3 then 0.0 else H(keys, 1), Den(SystemOf(keys), 0));
    } else {
      PivotPositive(keys, i - 1);
      PivotBound(H(keys, i), H(keys, i + 1), P(SystemOf(keys), i - 1), Den(SystemOf(keys), i));
      FractionBound(H(keys, i), Den(SystemOf(keys), i));
    }
  }

  /** One step of the forward sweep. */
  lemma SplineRow(keys: seq<real>, i: nat)
    requires |keys| >= 3 && i < |keys| - 2
    ensures var s := SystemOf(keys);
            Den(s, i) == 2.0 * (H(keys, i) + H(keys, i + 1)) + (if i == 0 then 0.0 else H(keys, i) * P(s, i - 1)) &&
            P(s, i) == Ratio(-(if |keys| == 3 then 0.0 else if i == 0 then H(keys, 1) else H(keys, i)), Den(s, i))
  {
    hide Ratio, H;
  }

  lemma PivotBound(h: real, g: real, p: real, den: real)
    requires h > 0.0 && g > 0.0 && -1.0 < p && den == 2.0 * (h + g) + h * p
    ensures den > h
  {
    assert h * (p + 1.0) > 0.0;
  }

  lemma FractionBound(c: real, den: real)
    requires 0.0 <= c < den
    ensures -1.0 < Ratio(-c, den) <= 0.0
  {
    var r := Ratio(-c, den);
    assert r * den == -c;
    if r > 0.0 { MultSign(r, den); }
    if r <= -1.0 { Dominates(-r, den); }
  }

  lemma SplinePivots(keys: seq<real>)
    requires Increasing(keys) && |keys| >= 3
    ensures Pivots(SystemOf(keys))
  {
    hide Den;
    forall i | 0 <= i < |keys| - 2 ensures Den(SystemOf(keys), i) != 0.0 { PivotPositive(keys, i); }
  }

  /** Keys for which nothing is divided by zero. */
  ghost predicate Solvable(keys: seq<real>) {
    Separated(keys) && (|keys| >= 3 ==> Pivots(SystemOf(keys)))
  }

  lemma SolvableParts(keys: seq<real>)
    requires Solvable(keys)
    ensures Separated(keys) && (|keys| >= 3 ==> Pivots(SystemOf(keys)))
  {
  }

  /** Any increasing keys will do. */
  lemma IncreasingIsSolvable(keys: seq<real>)
    requires Increasing(keys)
    ensures Solvable(keys)
  {
    hide Increasing, Pivots, SystemOf;
    if |keys| >= 3 { SplinePivots(keys); }
  }

  // ----- coefficients -----

  /** Second derivatives in the knots: zero at both ends. */
  function Moments(keys: seq<real>, values: seq<real>): (v: seq<real>)
    requires Separated(keys) && |keys| == |values| >= 2
    ensures |v| == |keys| && v[0] == 0.0 && v[|keys| - 1] == 0.0
  {
    if |keys| == 2 then [0.0, 0.0]
    else [0.0] + Solution(SystemOf(keys), RightSide(keys, values)) + [0.0]
  }

  datatype MultiSplineCoef = MultiSplineCoef(a: seq<real>, b: seq<real>, c: seq<real>, d: seq<real>) {
    predicate Sized(n: int) { |a| == |b| == |c| == |d| == n }
  }

  function CubicCoef(h: real, v: real, next: real): real
    requires h != 0.0
  {
    (next - v) / 6.0 / h
  }

  function LinearCoef(slope: real, h: real, v: real, next: real): real {
    slope - h * (2.0 * v + next) / 6.0
  }

  function SplineOf(keys: seq<real>, values: seq<real>): (s: MultiSplineCoef)
    requires Separated(keys) && |keys| == |values| >= 2
    ensures s.Sized(|keys| - 1)
  {
    var v, n := Moments(keys, values), |keys| - 1;
    MultiSplineCoef(
      seq(n, i requires 0 <= i < n => HNonzero(keys, i); CubicCoef(H(keys, i), v[i], v[i + 1])),
      seq(n, i requires 0 <= i < n => v[i] / 2.0),
      seq(n, i requires 0 <= i < n => LinearCoef(Slope(keys, values, i), H(keys, i), v[i], v[i + 1])),
      seq(n, i requires 0 <= i < n => values[i]))
  }

  datatype Derivative = Value | First | Second

  /** Piece j of the spline, or a derivative of it, ds after its left knot. */
  function PieceAt(s: MultiSplineCoef, order: Derivative, j: nat, ds: real): real
    requires s.Sized(|s.a|) && j < |s.a|
  {
    match order
    case Value => s.d[j] + (s.c[j] + (s.b[j] + s.a[j] * ds) * ds) * ds
    case First => s.c[j] + (2.0 * s.b[j] + 3.0 * s.a[j] * ds) * ds
    case Second => 2.0 * s.b[j] + 6.0 * s.a[j] * ds
  }

  function SplineAt(keys: seq<real>, s: MultiSplineCoef, order: Derivative, q: real): real
    requires |keys| >= 2 && s.Sized(|keys| - 1) && q <= keys[|keys| - 1]
  {
    PieceAt(s, order, PieceOf(keys, q), q - keys[PieceOf(keys, q)])
  }

  /** The results so far are the values of the spline at the first queries, none beyond the keys. */
  predicate EvaluatedTo(keys: seq<real>, s: MultiSplineCoef, order: Derivative, q: seq<real>, res: seq<real>)
    requires |keys| >= 2 && s.Sized(|keys| - 1)
  {
    |res| <= |q| && forall i :: 0 <= i < |res| ==>
      q[i] <= keys[|keys| - 1] && res[i] == SplineAt(keys, s, order, q[i])
  }

  lemma EvaluatedStart(keys: seq<real>, s: MultiSplineCoef, order: Derivative, q: seq<real>)
    requires |keys| >= 2 && s.Sized(|keys| - 1)
    ensures EvaluatedTo(keys, s, order, q, [])
  {
  }

  lemma EvaluatedNext(keys: seq<real>, s: MultiSplineCoef, order: Derivative, q: seq<real>, res: seq<real>, ds: real)
    requires |keys| >= 2 && s.Sized(|keys| - 1) && |res| < |q| && EvaluatedTo(keys, s, order, q, res)
    requires q[|res|] <= keys[|keys| - 1] && ds == q[|res|] - keys[PieceOf(keys, q[|res|])]
    ensures EvaluatedTo(keys, s, order, q, res + [PieceAt(s, order, PieceOf(keys, q[|res|]), ds)])
  {
    hide PieceAt, PieceOf;
  }

  lemma EvaluatedInRange(keys: seq<real>, s: MultiSplineCoef, order: Derivative, q: seq<real>, res: seq<real>)
    requires |keys| >= 2 && s.Sized(|keys| - 1) && EvaluatedTo(keys, s, order, q, res)
    ensures forall i :: 0 <= i < |res| ==> q[i] <= keys[|keys| - 1]
  {
  }

  class SplineInterpolation {
    var baseKeys: seq<real>
    var coef: MultiSplineCoef

    predicate Valid()
      reads this
    {
      baseKeys != [] ==> coef.Sized(|baseKeys| - 1)
    }

    constructor ()
      ensures Valid() && baseKeys == []
    {
      baseKeys, coef := [], MultiSplineCoef([], [], [], []);
    }

    /** Arguments that do not match are rejected; that the keys increase is only checked by queries. */
    method CalcSplineCoefficients(keys: seq<real>, values: seq<real>) returns (ok: bool)
      requires Matching(keys, values) ==> Solvable(keys)
      modifies this
      ensures ok <==> Matching(keys, values)
      ensures ok ==> Valid() && baseKeys == keys && coef == SplineOf(keys, values)
      ensures !ok ==> baseKeys == old(baseKeys) && coef == old(coef)
    {
      hide Separated, Moments, Slope, H, CubicCoef, LinearCoef, SplineOf;
      ok := ValidateKeysAndValues(keys, values);
      if !ok { return; }
      var diffKeys, diffValues := Differences(keys), Differences(values);
      var v := SolveMoments(keys, values, diffKeys, diffValues);
      var n := |keys| - 1;
      ghost var target := SplineOf(keys, values);
      var a, b, c, d := seq(n, _ => 0.0), seq(n, _ => 0.0), seq(n, _ => 0.0), seq(n, _ => 0.0);
      var i := 0;
      while i < n
        invariant 0 <= i <= n && |a| == |b| == |c| == |d| == n
        invariant forall k :: 0 <= k < i ==> a[k] == target.a[k] && b[k] == target.b[k]
        invariant forall k :: 0 <= k < i ==> c[k] == target.c[k] && d[k] == target.d[k]
      {
        SlopeIs(keys, values, i);
        CoefIs(keys, values, i);
        a := a[i := CubicCoef(diffKeys[i], v[i], v[i + 1])];
        b := b[i := v[i] / 2.0];
        c := c[i := LinearCoef(diffValues[i] / diffKeys[i], diffKeys[i], v[i], v[i + 1])];
        d := d[i := values[i]];
        i := i + 1;
      }
      coef := MultiSplineCoef(a, b, c, d);
      baseKeys := keys;
    }

    static function Differences(x: seq<real>): (d: seq<real>)
      requires |x| >= 1
      ensures |d| == |x| - 1 && forall i :: 0 <= i < |d| ==> d[i] == x[i + 1] - x[i]
    {
      seq(|x| - 1, i requires 0 <= i < |x| - 1 => x[i + 1] - x[i])
    }

    static method SolveMoments(keys: seq<real>, values: seq<real>, diffKeys: seq<real>, diffValues: seq<real>)
        returns (v: seq<real>)
      requires Solvable(keys) && Matching(keys, values)
      requires diffKeys == Differences(keys) && diffValues == Differences(values)
      ensures v == Moments(keys, values)
    {
      hide Separated, Slope, H, X, SystemOf, RightSide, Moments, Pivots;
      v := [0.0];
      if |keys| > 2 {
        var n := |keys| - 2;
        ghost var target, right := SystemOf(keys), RightSide(keys, values);
        var a, b, c := seq(n - 1, _ => 0.0), seq(n, _ => 0.0), seq(n - 1, _ => 0.0);
        var d := seq(n, _ => 0.0);
        var i := 0;
        while i < n
          invariant 0 <= i <= n && |a| == |c| == n - 1 && |b| == |d| == n
          invariant forall k :: 0 <= k < i ==> b[k] == target.b[k] && d[k] == right[k]
          invariant forall k :: 0 <= k < i && k < n - 1 ==> a[k] == target.a[k] && c[k] == target.c[k]
        {
          SystemIs(keys, values, i);
          b := b[i := 2.0 * (diffKeys[i] + diffKeys[i + 1])];
          if i != n - 1 {
            a := a[i := diffKeys[i + 1]];
            c := c[i := diffKeys[i + 1]];
          }
          d := d[i := 6.0 * (diffValues[i + 1] / diffKeys[i + 1] - diffValues[i] / diffKeys[i])];
          i := i + 1;
        }
        assert a == target.a && b == target.b && c == target.c && d == right;
        var x := SolveTridiagonalMatrixAlgorithm(System(a, b, c), d);
        assert x == Solution(target, right);
        v := v + x;
      }
      v := v + [0.0];
      MomentsAre(keys, values);
    }

    static lemma MomentsAre(keys: seq<real>, values: seq<real>)
      requires Separated(keys) && Matching(keys, values)
      ensures |keys| == 2 ==> Moments(keys, values) == [0.0] + [0.0]
      ensures |keys| > 2 ==>
        Moments(keys, values) == [0.0] + Solution(SystemOf(keys), RightSide(keys, values)) + [0.0]
    {
    }

    static lemma SystemIs(keys: seq<real>, values: seq<real>, i: nat)
      requires Separated(keys) && Matching(keys, values) && i + 2 < |keys|
      ensures var h, y := Differences(keys), Differences(values);
              h[i] != 0.0 && h[i + 1] != 0.0 &&
              SystemOf(keys).b[i] == 2.0 * (h[i] + h[i + 1]) &&
              (i + 3 < |keys| ==> SystemOf(keys).a[i] == SystemOf(keys).c[i] == h[i + 1]) &&
              RightSide(keys, values)[i] == 6.0 * (y[i + 1] / h[i + 1] - y[i] / h[i])
    {
      hide Slope;
      SlopeIs(keys, values, i);
      SlopeIs(keys, values, i + 1);
    }

    static lemma CoefIs(keys: seq<real>, values: seq<real>, i: nat)
      requires Separated(keys) && Matching(keys, values) && i + 1 < |keys|
      ensures H(keys, i) != 0.0
      ensures SplineOf(keys, values).a[i] ==
        CubicCoef(H(keys, i), Moments(keys, values)[i], Moments(keys, values)[i + 1])
      ensures SplineOf(keys, values).b[i] == Moments(keys, values)[i] / 2.0
      ensures SplineOf(keys, values).c[i] ==
        LinearCoef(Slope(keys, values, i), H(keys, i), Moments(keys, values)[i], Moments(keys, values)[i + 1])
      ensures SplineOf(keys, values).d[i] == values[i]
    {
      hide Moments, Slope, CubicCoef, LinearCoef;
      HNonzero(keys, i);
    }

    static lemma SlopeIs(keys: seq<real>, values: seq<real>, i: nat)
      requires Separated(keys) && Matching(keys, values) && i + 1 < |keys|
      ensures Differences(keys)[i] == H(keys, i) != 0.0
      ensures Differences(values)[i] / Differences(keys)[i] == Slope(keys, values, i)
    {
    }

    /** The three evaluators: values, first or second derivatives at the cropped queries. A query
        other than the last beyond the last key runs out of keys. */
    method Interpolated(order: Derivative, queries: seq<real>) returns (r: Result<seq<real>, Error>)
      requires Valid()
      ensures !Acceptable(baseKeys, queries) ==> r == Err(InvalidArgument)
      ensures Acceptable(baseKeys, queries) && RunsOut(baseKeys, queries) ==> r == Err(OutOfRange)
      ensures Acceptable(baseKeys, queries) && !RunsOut(baseKeys, queries) ==>
        r.Ok? && |r.value| == |queries| &&
        EvaluatedTo(baseKeys, coef, order, Cropped(baseKeys, queries), r.value)
    {
      r := Evaluate(baseKeys, coef, order, queries);
    }

    static method Evaluate(keys: seq<real>, s: MultiSplineCoef, order: Derivative, queries: seq<real>)
        returns (r: Result<seq<real>, Error>)
      requires keys != [] ==> s.Sized(|keys| - 1)
      ensures !Acceptable(keys, queries) ==> r == Err(InvalidArgument)
      ensures Acceptable(keys, queries) && RunsOut(keys, queries) ==> r == Err(OutOfRange)
      ensures Acceptable(keys, queries) && !RunsOut(keys, queries) ==>
        r.Ok? && |r.value| == |queries| && EvaluatedTo(keys, s, order, Cropped(keys, queries), r.value)
    {
      hide SplineAt, RunsOut, Increasing, PieceOf, Cropped, Acceptable, EvaluatedTo;
      var validated := ValidateKeys(keys, queries);
      if validated.Err? { return Err(validated.error); }
      var q := validated.value;
      AcceptableKeys(keys, queries);
      CroppedRunsOut(keys, queries);
      EvaluatedStart(keys, s, order, q);
      var res, j, i := [], 0, 0;
      while i < |q|
        invariant 0 <= i == |res| <= |q| && EvaluatedTo(keys, s, order, q, res)
        invariant i == 0 ==> j == 0
        invariant i > 0 ==> q[i - 1] <= keys[|keys| - 1] && j == PieceOf(keys, q[i - 1])
      {
        if i > 0 { PiecesAdvance(keys, queries, i - 1); }
        var found;
        j, found := Advance(keys, q[i], j);
        if !found { return Err(OutOfRange); }
        var ds := q[i] - keys[j];
        EvaluatedNext(keys, s, order, q, res, ds);
        res := res + [PieceAt(s, order, j, ds)];
        i := i + 1;
      }
      EvaluatedInRange(keys, s, order, q, res);
      r := Ok(res);
    }
  }

  // ----- pieces and knots -----

  /** The three evaluators belong together: they are the coefficients of the piece around any point. */
  lemma PieceExpands(s: MultiSplineCoef, j: nat, ds: real, e: real)
    requires s.Sized(|s.a|) && j < |s.a|
    ensures PieceAt(s, Value, j, ds + e) ==
            PieceAt(s, Value, j, ds) +
            (PieceAt(s, First, j, ds) + (PieceAt(s, Second, j, ds) / 2.0 + s.a[j] * e) * e) * e
  {
    CubicExpands(s.a[j], s.b[j], s.c[j], s.d[j], ds, e);
  }

  lemma CubicExpands(a: real, b: real, c: real, d: real, x: real, e: real)
    ensures d + (c + (b + a * (x + e)) * (x + e)) * (x + e) ==
            d + (c + (b + a * x) * x) * x + (c + (2.0 * b + 3.0 * a * x) * x + (b + 3.0 * a * x + a * e) * e) * e
  {
    var y := x + e;
    assert a * y * y * y == a * x * x * x + 3.0 * (a * x * x * e) + 3.0 * (a * x * e * e) + a * e * e * e;
    assert b * y * y == b * x * x + 2.0 * (b * x * e) + b * e * e;
  }

  lemma CubicTimes(h: real, v: real, next: real)
    requires h != 0.0
    ensures 6.0 * (CubicCoef(h, v, next) * h) == next - v
  {
    var x := (next - v) / 6.0;
    assert x / h * h == x;
  }

  lemma SlopeTimes(keys: seq<real>, values: seq<real>, i: nat)
    requires Separated(keys) && |keys| == |values| && i + 1 < |keys|
    ensures H(keys, i) != 0.0 && Slope(keys, values, i) * H(keys, i) == values[i + 1] - values[i]
  {
    HNonzero(keys, i);
  }

  lemma NextStart(slope: real, h: real, v: real, next: real)
    ensures LinearCoef(slope, h, v, next) == slope - h * (2.0 * v + next) / 6.0
  {
  }

  lemma PieceAlgebra(slope: real, h: real, v: real, next: real, a: real, b: real, c: real)
    requires 6.0 * (a * h) == next - v && b == v / 2.0 && c == LinearCoef(slope, h, v, next)
    ensures c + (b + a * h) * h == slope
    ensures c + (2.0 * b + 3.0 * a * h) * h == slope + h * (v + 2.0 * next) / 6.0
    ensures 2.0 * b + 6.0 * a * h == next
  {
    var k := a * h;
    assert 3.0 * a * h == 3.0 * k && 6.0 * a * h == 6.0 * k;
    assert b + k == (2.0 * v + next) / 6.0;
    assert 2.0 * b + 3.0 * k == (v + next) / 2.0;
    assert (b + k) * h == h * (2.0 * v + next) / 6.0;
    assert (2.0 * b + 3.0 * k) * h == h * ((v + next) / 2.0);
  }

  /** Both ends of piece j in terms of the moments. */
  lemma PieceEnds(keys: seq<real>, values: seq<real>, j: nat)
    requires Separated(keys) && |keys| == |values| >= 2 && j + 1 < |keys|
    ensures var s, v, h := SplineOf(keys, values), Moments(keys, values), H(keys, j);
            PieceAt(s, Value, j, 0.0) == values[j] && PieceAt(s, Value, j, h) == values[j + 1] &&
            PieceAt(s, First, j, 0.0) == Slope(keys, values, j) - h * (2.0 * v[j] + v[j + 1]) / 6.0 &&
            PieceAt(s, First, j, h) == Slope(keys, values, j) + h * (v[j] + 2.0 * v[j + 1]) / 6.0 &&
            PieceAt(s, Second, j, 0.0) == v[j] && PieceAt(s, Second, j, h) == v[j + 1]
  {
    hide Moments, Slope, CubicCoef, SplineOf, H, LinearCoef, Separated;
    var s, v, h := SplineOf(keys, values), Moments(keys, values), H(keys, j);
    SplineInterpolation.CoefIs(keys, values, j);
    SlopeTimes(keys, values, j);
    CubicTimes(h, v[j], v[j + 1]);
    NextStart(Slope(keys, values, j), h, v[j], v[j + 1]);
    PieceAlgebra(Slope(keys, values, j), h, v[j], v[j + 1], s.a[j], s.b[j], s.c[j]);
  }

  /** Each piece starts and ends at the values of its knots, and its second derivative at their
      moments, so both are continuous and the second derivative vanishes at both ends. */
  lemma PassesThroughKnots(keys: seq<real>, values: seq<real>)
    requires Separated(keys) && |keys| == |values| >= 2
    ensures var s, n := SplineOf(keys, values), |keys| - 1;
            (forall j :: 0 <= j < n ==>
              PieceAt(s, Value, j, 0.0) == values[j] && PieceAt(s, Value, j, H(keys, j)) == values[j + 1]) &&
            (forall j :: 0 <= j < n - 1 ==>
              PieceAt(s, Second, j, H(keys, j)) == PieceAt(s, Second, j + 1, 0.0)) &&
            PieceAt(s, Second, 0, 0.0) == 0.0 && PieceAt(s, Second, n - 1, H(keys, n - 1)) == 0.0
  {
    hide Moments, SplineOf, H, Separated, PieceAt;
    forall j | 0 <= j < |keys| - 1
      ensures PieceAt(SplineOf(keys, values), Value, j, 0.0) == values[j]
      ensures PieceAt(SplineOf(keys, values), Value, j, H(keys, j)) == values[j + 1]
    {
      PieceEnds(keys, values, j);
    }
    forall j | 0 <= j < |keys| - 2
      ensures PieceAt(SplineOf(keys, values), Second, j, H(keys, j)) ==
              PieceAt(SplineOf(keys, values), Second, j + 1, 0.0)
    {
      PieceEnds(keys, values, j);
      PieceEnds(keys, values, j + 1);
    }
    PieceEnds(keys, values, 0);
    PieceEnds(keys, values, |keys| - 2);
  }

  /** The first derivative jumps by a sixth of the residual of the solver. */
  lemma DerivativeJump(keys: seq<real>, values: seq<real>, j: nat)
    requires Solvable(keys) && |keys| == |values| && j + 2 < |keys|
    ensures 6.0 * (PieceAt(SplineOf(keys, values), First, j, H(keys, j)) -
                   PieceAt(SplineOf(keys, values), First, j + 1, 0.0)) ==
            Residual(SystemOf(keys), Solution(SystemOf(keys), RightSide(keys, values)), j)
  {
    hide Slope, X, Residual, SplineOf, PieceAt, Moments, H, Separated, SystemOf, Pivots, Row;
    var s, d, v := SystemOf(keys), RightSide(keys, values), Moments(keys, values);
    PieceEnds(keys, values, j);
    PieceEnds(keys, values, j + 1);
    RowResidual(s, d, Solution(s, d), j);
    JumpIsRow(keys, values, j);
  }

  /** Row j of the system in terms of the moments. */
  lemma JumpIsRow(keys: seq<real>, values: seq<real>, j: nat)
    requires Separated(keys) && |keys| == |values| && j + 2 < |keys|
    ensures var v := Moments(keys, values);
            var x := Solution(SystemOf(keys), RightSide(keys, values));
            Row(SystemOf(keys), x, j) ==
            H(keys, j) * (v[j] + 2.0 * v[j + 1]) + H(keys, j + 1) * (2.0 * v[j + 1] + v[j + 2])
  {
    hide X, Slope;
    var v, x := Moments(keys, values), Solution(SystemOf(keys), RightSide(keys, values));
    assert v[j + 1] == x[j];
    assert j > 0 ==> v[j] == x[j - 1];
    assert j + 3 < |keys| ==> v[j + 2] == x[j + 1];
  }

  /** At a knot the spline has the value of the knot. */
  lemma KnotQuery(keys: seq<real>, values: seq<real>, k: nat)
    requires Increasing(keys) && |keys| == |values| >= 2 && k < |keys|
    ensures keys[k] <= keys[|keys| - 1]
    ensures SplineAt(keys, SplineOf(keys, values), Value, keys[k]) == values[k]
  {
    hide PieceAt, SplineOf, Moments, Slope;
    var j := if k == 0 then 0 else k - 1;
    SamePiece(keys, keys[k], j, PieceOf(keys, keys[k]));
    PieceEnds(keys, values, j);
    assert keys[k] - keys[j] == if k == 0 then 0.0 else H(keys, j);
  }

  // ----- the first derivative -----

  predicate Smooth(keys: seq<real>, values: seq<real>)
    requires Separated(keys) && |keys| == |values| >= 2
  {
    forall j :: 0 <= j < |keys| - 2 ==>
      PieceAt(SplineOf(keys, values), First, j, H(keys, j)) == PieceAt(SplineOf(keys, values), First, j + 1, 0.0)
  }

  /** The spacings between interior knots are all equal. */
  predicate EvenInside(keys: seq<real>) {
    forall j :: 1 <= j < |keys| - 3 ==> H(keys, j + 1) == H(keys, j)
  }

  lemma SmoothIffSolved(keys: seq<real>, values: seq<real>)
    requires Solvable(keys) && |keys| == |values| >= 3
    ensures Smooth(keys, values) <==>
            Solves(SystemOf(keys), RightSide(keys, values), Solution(SystemOf(keys), RightSide(keys, values)))
  {
    hide SplineOf, H, Separated, SystemOf, RightSide, X, Row, Residual, PieceAt, Pivots;
    var s, d := SystemOf(keys), RightSide(keys, values);
    var x := Solution(s, d);
    forall j | 0 <= j < |keys| - 2
      ensures Row(s, x, j) == d[j] <==>
        PieceAt(SplineOf(keys, values), First, j, H(keys, j)) == PieceAt(SplineOf(keys, values), First, j + 1, 0.0)
    {
      DerivativeJump(keys, values, j);
      RowResidual(s, d, x, j);
    }
  }

  lemma EvenIsConstant(keys: seq<real>)
    requires |keys| >= 3
    ensures EvenInside(keys) <==> ConstantSuper(SystemOf(keys))
  {
    hide H;
    var c := SystemOf(keys).c;
    if EvenInside(keys) {
      forall j | 1 <= j < |c| ensures c[j] == c[j - 1] { assert H(keys, j + 1) == H(keys, j); }
    }
    if ConstantSuper(SystemOf(keys)) {
      forall j | 1 <= j < |keys| - 3 ensures H(keys, j + 1) == H(keys, j) { assert c[j] == c[j - 1]; }
    }
  }

  /** Slopes and values with a given right-hand side. */
  function ChosenSlope(d: seq<real>, i: nat): real
    requires i <= |d|
  {
    if i == 0 then 0.0 else ChosenSlope(d, i - 1) + d[i - 1] / 6.0
  }

  function ChosenValue(keys: seq<real>, d: seq<real>, k: nat): real
    requires k < |keys| == |d| + 2
  {
    if k == 0 then 0.0 else ChosenValue(keys, d, k - 1) + ChosenSlope(d, k - 1) * H(keys, k - 1)
  }

  function ChosenValues(keys: seq<real>, d: seq<real>): (values: seq<real>)
    requires |keys| == |d| + 2
    ensures |values| == |keys|
  {
    seq(|keys|, k requires 0 <= k < |keys| => ChosenValue(keys, d, k))
  }

  lemma ChosenSlopes(keys: seq<real>, d: seq<real>, i: nat)
    requires Separated(keys) && |keys| == |d| + 2 && i + 1 < |keys|
    ensures Slope(keys, ChosenValues(keys, d), i) == ChosenSlope(d, i)
  {
    hide H, ChosenValue, ChosenSlope;
    HNonzero(keys, i);
    NextChosen(keys, d, i);
    Quotient(ChosenSlope(d, i), H(keys, i), ChosenValue(keys, d, i + 1) - ChosenValue(keys, d, i));
  }

  lemma NextChosen(keys: seq<real>, d: seq<real>, i: nat)
    requires |keys| == |d| + 2 && i + 1 < |keys|
    ensures ChosenValue(keys, d, i + 1) - ChosenValue(keys, d, i) == ChosenSlope(d, i) * H(keys, i)
  {
    hide H, ChosenSlope;
  }

  lemma Quotient(q: real, h: real, x: real)
    requires h != 0.0 && x == q * h
    ensures x / h == q
  {
  }

  /** Every right-hand side belongs to some values. */
  lemma RightSideReached(keys: seq<real>, d: seq<real>)
    requires Separated(keys) && |keys| == |d| + 2 >= 3
    ensures RightSide(keys, ChosenValues(keys, d)) == d
  {
    hide Slope, Separated, ChosenValues;
    var r := RightSide(keys, ChosenValues(keys, d));
    forall i | 0 <= i < |d| ensures r[i] == d[i] {
      ChosenSlopes(keys, d, i);
      ChosenSlopes(keys, d, i + 1);
      assert ChosenSlope(d, i + 1) == ChosenSlope(d, i) + d[i] / 6.0;
    }
  }

  lemma UnevenIsRough(keys: seq<real>) returns (values: seq<real>)
    requires Solvable(keys) && |keys| >= 3 && !EvenInside(keys)
    ensures |values| == |keys| && !Smooth(keys, values)
  {
    hide *;
    SolvableParts(keys);
    EvenIsConstant(keys);
    var d := InexactProbe(SystemOf(keys));
    values := ChosenValues(keys, d);
    RightSideReached(keys, d);
    SmoothIffSolved(keys, values);
  }

  lemma EvenIsSmooth(keys: seq<real>, values: seq<real>)
    requires Solvable(keys) && |keys| == |values| >= 2 && EvenInside(keys)
    ensures Smooth(keys, values)
  {
    if |keys| >= 3 {
      hide *;
      SolvableParts(keys);
      EvenIsConstant(keys);
      ExactIfConstant(SystemOf(keys), RightSide(keys, values));
      SmoothIffSolved(keys, values);
    }
  }

  /** The documented continuity of the first derivative holds for all values if and only if the
      spacings between interior knots are equal; in particular for at most four knots. */
  lemma SmoothForAllIff(keys: seq<real>)
    requires Solvable(keys) && |keys| >= 2
    ensures (forall values: seq<real> :: |values| == |keys| ==> Smooth(keys, values)) <==> EvenInside(keys)
    ensures |keys| <= 4 ==> EvenInside(keys)
  {
    hide Smooth;
    if EvenInside(keys) {
      forall values: seq<real> | |values| == |keys| ensures Smooth(keys, values) { EvenIsSmooth(keys, values); }
    } else {
      var values := UnevenIsRough(keys);
    }
  }

  /** Five unevenly spaced knots on which some values give a kink. */
  lemma KinkExample() returns (values: seq<real>)
    ensures Increasing([0.0, 1.0, 2.0, 4.0, 5.0])
    ensures |values| == 5 && !Smooth([0.0, 1.0, 2.0, 4.0, 5.0], values)
  {
    var keys := [0.0, 1.0, 2.0, 4.0, 5.0];
    assert H(keys, 2) != H(keys, 1);
    assert Increasing(keys);
    IncreasingIsSolvable(keys);
    values := UnevenIsRough(keys);
  }

  // ----- affine data -----

  ghost predicate Affine(keys: seq<real>, values: seq<real>, m: real, n: real) {
    |keys| == |values| && forall i :: 0 <= i < |keys| ==> values[i] == m * keys[i] + n
  }

  lemma {:induction false} ZeroSweep(s: System, d: seq<real>, i: nat)
    requires s.Shaped() && |d| == s.N() && i < s.N() && forall k :: 0 <= k < s.N() ==> d[k] == 0.0
    ensures Q(s, d, i) == 0.0
  {
    hide Den;
    if i > 0 { ZeroSweep(s, d, i - 1); }
  }

  lemma {:induction false} ZeroSolution(s: System, d: seq<real>, i: nat)
    requires s.Shaped() && |d| == s.N() && i < s.N() && forall k :: 0 <= k < s.N() ==> d[k] == 0.0
    ensures X(s, d, i) == 0.0
    decreases s.N() - i
  {
    hide P, Q;
    ZeroSweep(s, d, i);
    if i < s.N() - 1 { ZeroSolution(s, d, i + 1); }
  }

  lemma AffineSlope(keys: seq<real>, values: seq<real>, m: real, n: real, i: nat)
    requires Separated(keys) && Affine(keys, values, m, n) && i + 1 < |keys|
    ensures Slope(keys, values, i) == m
  {
    HNonzero(keys, i);
    Quotient(m, H(keys, i), values[i + 1] - values[i]);
  }

  lemma AffineMoments(keys: seq<real>, values: seq<real>, m: real, n: real)
    requires Separated(keys) && Affine(keys, values, m, n) && |keys| >= 2
    ensures forall i :: 0 <= i < |keys| ==> Moments(keys, values)[i] == 0.0
  {
    hide X, Slope, SystemOf, Separated;
    if |keys| >= 3 {
      var s, d := SystemOf(keys), RightSide(keys, values);
      forall i | 0 <= i < |d| ensures d[i] == 0.0 {
        AffineSlope(keys, values, m, n, i);
        AffineSlope(keys, values, m, n, i + 1);
      }
      forall i | 0 <= i < |d| ensures Solution(s, d)[i] == 0.0 { ZeroSolution(s, d, i); }
    }
  }

  /** Affine data is reproduced exactly at every query, whatever the spacing. */
  lemma AffineIsReproduced(keys: seq<real>, values: seq<real>, m: real, n: real, q: real)
    requires Separated(keys) && Affine(keys, values, m, n) && |keys| >= 2 && q <= keys[|keys| - 1]
    ensures SplineAt(keys, SplineOf(keys, values), Value, q) == m * q + n
  {
    hide Moments, Slope, H, Separated, SplineOf;
    var j, s := PieceOf(keys, q), SplineOf(keys, values);
    AffineMoments(keys, values, m, n);
    AffineSlope(keys, values, m, n, j);
    SplineInterpolation.CoefIs(keys, values, j);
    FlatCoef(H(keys, j));
    assert s.a[j] == 0.0 && s.b[j] == 0.0 && s.c[j] == m && s.d[j] == m * keys[j] + n;
    StraightPiece(m, n, keys[j], q);
  }

  lemma FlatCoef(h: real)
    requires h != 0.0
    ensures CubicCoef(h, 0.0, 0.0) == 0.0
  {
  }

  lemma StraightPiece(m: real, n: real, k: real, q: real)
    ensures m * k + n + (m + (0.0 + 0.0 * (q - k)) * (q - k)) * (q - k) == m * q + n
  {
  }
}
