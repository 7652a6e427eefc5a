/** The smooth stop of the longitudinal controller: a least-squares line through recent velocities
    predicts the time to stop, which selects between weak and strong braking. */
module SmoothStop {
  import opened Wrappers
  import opened Scalars

  /** Time relative to now, and velocity. */
  datatype Sample = Sample(t: real, v: real)

  /** The machine epsilon of double precision, 2^-52. */
  const EPSILON := 1.0 / 4503599627370496.0

  // ----- sums over the history -----

  function SumT(h: seq<Sample>): real {
    if h == [] then 0.0 else SumT(h[..|h| - 1]) + h[|h| - 1].t
  }

  function SumV(h: seq<Sample>): real {
    if h == [] then 0.0 else SumV(h[..|h| - 1]) + h[|h| - 1].v
  }

  function SumTV(h: seq<Sample>): real {
    if h == [] then 0.0 else SumTV(h[..|h| - 1]) + Mult(h[|h| - 1].t, h[|h| - 1].v)
  }

  function SumTT(h: seq<Sample>): real {
    if h == [] then 0.0 else SumTT(h[..|h| - 1]) + Square(h[|h| - 1].t)
  }

  /** The distance of a sample from the line v = a t + b. */
  function Residual(s: Sample, a: real, b: real): real {
    s.v - a * s.t - b
  }

  /** The sum of squared distances from the line. */
  function Error(h: seq<Sample>, a: real, b: real): real {
    if h == [] then 0.0 else Error(h[..|h| - 1], a, b) + Square(Residual(h[|h| - 1], a, b))
  }

  /** The fitted line, as computed from the means. */
  datatype Fit = Fit(size: real, meanT: real, meanV: real, sumTV: real, sumTT: real) {
    function Denominator(): real { size * meanT * meanT - sumTT }

    function Slope(): real
      requires Denominator() != 0.0
    {
      (size * meanT * meanV - sumTV) / Denominator()
    }

    function Intercept(): real
      requires Denominator() != 0.0
    {
      meanV - Slope() * meanT
    }
  }

  function FitOf(h: seq<Sample>): Fit
    requires h != []
  {
    var n := |h| as real;
    Fit(n, SumT(h) / n, SumV(h) / n, SumTV(h), SumTT(h))
  }

  // ----- least squares -----

  /** How much a line moves at a sample when its coefficients change by x and y. */
  function Lift(s: Sample, x: real, y: real): real {
    x * s.t + y
  }

  function Shift(h: seq<Sample>, a: real, b: real, x: real, y: real): real {
    if h == [] then 0.0
    else Shift(h[..|h| - 1], a, b, x, y) + Mult(Lift(h[|h| - 1], x, y), Residual(h[|h| - 1], a, b))
  }

  function Spread(h: seq<Sample>, x: real, y: real): real {
    if h == [] then 0.0 else Spread(h[..|h| - 1], x, y) + Square(Lift(h[|h| - 1], x, y))
  }

  lemma SquareOfDifference(r: real, u: real)
    ensures Square(r - u) == Square(r) - 2.0 * Mult(u, r) + Square(u)
  {
  }

  lemma {:induction false} ErrorShifted(h: seq<Sample>, a: real, b: real, x: real, y: real)
    ensures Error(h, a + x, b + y) == Error(h, a, b) - 2.0 * Shift(h, a, b, x, y) + Spread(h, x, y)
  {
    hide Mult, Square, Residual, Lift;
    if h != [] {
      ErrorShifted(h[..|h| - 1], a, b, x, y);
      var s := h[|h| - 1];
      ResidualShifted(s, a, b, x, y);
      SquareOfDifference(Residual(s, a, b), Lift(s, x, y));
    }
  }

  lemma ResidualShifted(s: Sample, a: real, b: real, x: real, y: real)
    ensures Residual(s, a + x, b + y) == Residual(s, a, b) - Lift(s, x, y)
  {
  }

  lemma {:induction false} SpreadSign(h: seq<Sample>, x: real, y: real)
    ensures Spread(h, x, y) >= 0.0
  {
    hide Square, Lift;
    if h != [] {
      SpreadSign(h[..|h| - 1], x, y);
      SquareSign(Lift(h[|h| - 1], x, y));
    }
  }

  function SpreadForm(x: real, y: real, tt: real, st: real, n: real): real {
    x * x * tt + 2.0 * x * y * st + y * y * n
  }

  lemma {:induction false} SpreadIs(h: seq<Sample>, x: real, y: real)
    ensures Spread(h, x, y) == SpreadForm(x, y, SumTT(h), SumT(h), |h| as real)
  {
    hide SpreadForm, Square, Lift;
    if h == [] {
      NoSpread(x, y);
    } else {
      var n := |h| - 1;
      SpreadIs(h[..n], x, y);
      SpreadTerm(x, y, h[n], SumTT(h[..n]), SumT(h[..n]), n as real);
    }
  }

  lemma NoSpread(x: real, y: real)
    ensures SpreadForm(x, y, 0.0, 0.0, 0.0) == 0.0
  {
  }

  lemma SpreadTerm(x: real, y: real, s: Sample, tt: real, st: real, n: real)
    ensures SpreadForm(x, y, tt, st, n) + Square(Lift(s, x, y)) ==
            SpreadForm(x, y, tt + Square(s.t), st + s.t, n + 1.0)
  {
  }

  function ShiftForm(a: real, b: real, x: real, y: real, tv: real, tt: real, st: real, sv: real, n: real): real {
    x * (tv - a * tt - b * st) + y * (sv - a * st - b * n)
  }

  lemma {:induction false} ShiftIs(h: seq<Sample>, a: real, b: real, x: real, y: real)
    ensures Shift(h, a, b, x, y) == ShiftForm(a, b, x, y, SumTV(h), SumTT(h), SumT(h), SumV(h), |h| as real)
  {
    hide ShiftForm, Mult, Square, Lift, Residual;
    if h == [] {
      NoShift(a, b, x, y);
    } else {
      var n := |h| - 1;
      ShiftIs(h[..n], a, b, x, y);
      ShiftTerm(a, b, x, y, h[n], SumTV(h[..n]), SumTT(h[..n]), SumT(h[..n]), SumV(h[..n]), n as real);
    }
  }

  lemma NoShift(a: real, b: real, x: real, y: real)
    ensures ShiftForm(a, b, x, y, 0.0, 0.0, 0.0, 0.0, 0.0) == 0.0
  {
  }

  lemma ShiftTerm(a: real, b: real, x: real, y: real, s: Sample, tv: real, tt: real, st: real, sv: real, n: real)
    ensures ShiftForm(a, b, x, y, tv, tt, st, sv, n) + Mult(Lift(s, x, y), Residual(s, a, b)) ==
            ShiftForm(a, b, x, y, tv + Mult(s.t, s.v), tt + Square(s.t), st + s.t, sv + s.v, n + 1.0)
  {
  }

  /** The means times the size are the sums. */
  lemma MeansAreSums(h: seq<Sample>)
    requires h != []
    ensures FitOf(h).meanT * FitOf(h).size == SumT(h) && FitOf(h).meanV * FitOf(h).size == SumV(h)
  {
  }

  /** Cauchy-Schwarz: the denominator of the slope is never positive. */
  lemma DenominatorNotPositive(h: seq<Sample>)
    requires h != []
    ensures FitOf(h).Denominator() <= 0.0
  {
    hide SpreadForm, Spread, SumT, SumTT;
    var f := FitOf(h);
    MeansAreSums(h);
    SpreadSign(h, 1.0, -f.meanT);
    SpreadIs(h, 1.0, -f.meanT);
    SpreadAroundMean(f.meanT, SumT(h), SumTT(h), f.size);
  }

  lemma SpreadAroundMean(m: real, st: real, tt: real, n: real)
    requires m * n == st
    ensures SpreadForm(1.0, -m, tt, st, n) == -(n * m * m - tt)
  {
    assert m * st == m * (m * n);
  }

  /** The normal equations. */
  lemma NormalEquations(h: seq<Sample>)
    requires h != [] && FitOf(h).Denominator() != 0.0
    ensures var a, b := FitOf(h).Slope(), FitOf(h).Intercept();
            SumTV(h) - a * SumTT(h) - b * SumT(h) == 0.0 && SumV(h) - a * SumT(h) - b * |h| as real == 0.0
  {
    hide SumT, SumV, SumTT, SumTV;
    var f := FitOf(h);
    MeansAreSums(h);
    var a, d := f.Slope(), f.Denominator();
    assert a * d == f.size * f.meanT * f.meanV - f.sumTV;
    NormalAlgebra(f.size, f.meanT, f.meanV, f.sumTV, f.sumTT, SumT(h), SumV(h), a, f.Intercept());
  }

  lemma NormalAlgebra(n: real, mt: real, mv: real, tv: real, tt: real, st: real, sv: real, a: real, b: real)
    requires mt * n == st && mv * n == sv && b == mv - a * mt
    requires a * (n * mt * mt - tt) == n * mt * mv - tv
    ensures tv - a * tt - b * st == 0.0 && sv - a * st - b * n == 0.0
  {
    assert b * st == mv * (mt * n) - a * (mt * (mt * n));
    assert b * n == mv * n - a * (mt * n);
  }

  /** The computed line minimises the sum of squares over all lines. */
  lemma FitIsLeastSquares(h: seq<Sample>, a: real, b: real)
    requires h != [] && FitOf(h).Denominator() != 0.0
    ensures Error(h, FitOf(h).Slope(), FitOf(h).Intercept()) <= Error(h, a, b)
  {
    hide Error, Shift, Spread, Fit.Slope, Fit.Intercept, Fit.Denominator, SumT, SumV, SumTT, SumTV, ShiftForm;
    var a0, b0 := FitOf(h).Slope(), FitOf(h).Intercept();
    var x, y := a - a0, b - b0;
    NormalEquations(h);
    ErrorShifted(h, a0, b0, x, y);
    ShiftIs(h, a0, b0, x, y);
    SpreadSign(h, x, y);
    NothingShifts(a0, b0, x, y, SumTV(h), SumTT(h), SumT(h), SumV(h), |h| as real);
    assert a0 + x == a && b0 + y == b;
  }

  lemma NothingShifts(a: real, b: real, x: real, y: real, tv: real, tt: real, st: real, sv: real, n: real)
    requires tv - a * tt - b * st == 0.0 && sv - a * st - b * n == 0.0
    ensures ShiftForm(a, b, x, y, tv, tt, st, sv, n) == 0.0
  {
  }

  // ----- the prediction -----

  /** The answer of the prediction, given the history. */
  function TimeToStop(h: seq<Sample>): Option<real> {
    if h == [] then None
    else
      var f := FitOf(h);
      if Abs(f.Denominator()) < EPSILON then None
      else if Abs(f.Slope()) < EPSILON then None
      else
        var time := -f.Intercept() / f.Slope();
        if time > 0.0 then Some(time) else None
  }

  /** A time is predicted exactly when the samples spread in time, the fitted line is not level, and it
      reaches zero in the future; the two tolerances are the machine epsilon. */
  lemma PredictedIff(h: seq<Sample>)
    ensures TimeToStop(h).Some? <==>
            h != [] && -FitOf(h).Denominator() >= EPSILON && Abs(FitOf(h).Slope()) >= EPSILON &&
            (FitOf(h).Intercept() > 0.0) == (FitOf(h).Slope() < 0.0) && FitOf(h).Intercept() != 0.0
  {
    if h != [] {
      hide Fit.Denominator, Fit.Intercept, Fit.Slope, FitOf;
      DenominatorNotPositive(h);
      var f := FitOf(h);
      if -f.Denominator() >= EPSILON && Abs(f.Slope()) >= EPSILON { RootSign(f.Slope(), f.Intercept()); }
    }
  }

  lemma RootSign(a: real, b: real)
    requires a != 0.0
    ensures -b / a > 0.0 <==> b != 0.0 && (b > 0.0) == (a < 0.0)
  {
    var t := -b / a;
    assert t * a == -b;
    MultSign(t, a);
  }

  /** A predicted time is positive, lies where the fitted line reaches zero, and comes with a line
      that fits best. */
  lemma PredictionIsRoot(h: seq<Sample>)
    requires TimeToStop(h).Some?
    ensures h != [] && FitOf(h).Denominator() < 0.0
    ensures TimeToStop(h).value > 0.0 && FitOf(h).Slope() * TimeToStop(h).value + FitOf(h).Intercept() == 0.0
    ensures forall a, b :: Error(h, FitOf(h).Slope(), FitOf(h).Intercept()) <= Error(h, a, b)
  {
    hide Error, Fit.Denominator, Fit.Intercept, Fit.Slope, FitOf;
    var f := FitOf(h);
    DenominatorNotPositive(h);
    assert f.Slope() != 0.0;
    RootOf(f.Slope(), f.Intercept(), TimeToStop(h).value);
    forall a, b ensures Error(h, f.Slope(), f.Intercept()) <= Error(h, a, b) { FitIsLeastSquares(h, a, b); }
  }

  lemma RootOf(a: real, b: real, t: real)
    requires a != 0.0 && t == -b / a
    ensures a * t + b == 0.0
  {
    assert t * a == -b;
  }

  // ----- braking -----

  datatype Params = Params(
    maxStrongAcc: real, minStrongAcc: real, weakAcc: real, weakStopAcc: real, strongStopAcc: real,
    minFastVel: real, minRunningVel: real, minRunningAcc: real,
    weakStopTime: real, weakStopDist: real, strongStopDist: real)

  /** The acceleration that stops in the predicted distance, within its limits. */
  function StrongAcc(p: Params, velocity: real, distance: real): real {
    if distance < EPSILON then p.minStrongAcc
    else Max(Min(-Square(velocity) / (2.0 * distance), p.maxStrongAcc), p.minStrongAcc)
  }

  class SmoothStop {
    var params: Params
    var isSetParams: bool
    var strongAcc: real
    var weakAccTime: real

    constructor ()
      ensures !isSetParams
    {
      isSetParams, strongAcc, weakAccTime := false, 0.0, 0.0;
    }

    method SetParams(p: Params)
      modifies `params, `isSetParams
      ensures params == p && isSetParams
    {
      params := p;
      isSetParams := true;
    }

    method Init(velocity: real, distance: real, now: real)
      modifies `strongAcc, `weakAccTime
      ensures weakAccTime == now && strongAcc == StrongAcc(params, velocity, distance)
    {
      weakAccTime := now;
      if distance < EPSILON {
        strongAcc := params.minStrongAcc;
        return;
      }
      strongAcc := -Square(velocity) / (2.0 * distance);
      strongAcc := Max(Min(strongAcc, params.maxStrongAcc), params.minStrongAcc);
    }

    /** The accumulating loop; parameters that are not set stand for the exception. */
    method CalcTimeToStop(history: seq<Sample>) returns (initialised: bool, time: Option<real>)
      ensures initialised == isSetParams
      ensures initialised ==> time == TimeToStop(history)
    {
      time := None;
      initialised := isSetParams;
      if !initialised { return; }
      var size := |history| as real;
      if size == 0.0 { return; }
      var meanT, meanV, sumTV, sumTT := AccumulateHistory(history);
      var f := Fit(size, meanT, meanV, sumTV, sumTT);
      if Abs(f.Denominator()) < EPSILON { return; }
      var a, b := f.Slope(), f.Intercept();
      if Abs(a) < EPSILON { return; }
      var timeToStop := -b / a;
      if timeToStop > 0.0 { time := Some(timeToStop); }
    }

    static method AccumulateHistory(history: seq<Sample>)
        returns (meanT: real, meanV: real, sumTV: real, sumTT: real)
      requires history != []
      ensures Fit(|history| as real, meanT, meanV, sumTV, sumTT) == FitOf(history)
    {
      hide Mult, Square;
      var size := |history| as real;
      meanT, meanV, sumTV, sumTT := 0.0, 0.0, 0.0, 0.0;
      var i := 0;
      while i < |history|
        invariant 0 <= i <= |history|
        invariant meanT == SumT(history[..i]) / size && meanV == SumV(history[..i]) / size
        invariant sumTV == SumTV(history[..i]) && sumTT == SumTT(history[..i])
      {
        var t, v := history[i].t, history[i].v;
        assert history[..i + 1][..i] == history[..i];
        QuotientSum(SumT(history[..i]), t, size);
        QuotientSum(SumV(history[..i]), v, size);
        meanT := meanT + t / size;
        meanV := meanV + v / size;
        sumTV := sumTV + Mult(t, v);
        sumTT := sumTT + Square(t);
        i := i + 1;
      }
      assert history[..|history|] == history;
    }

    /** The branches in their order, and the time of the last weak braking while running. */
    method Calculate(distance: real, velocity: real, acceleration: real, history: seq<Sample>, delay: real, now: real)
        returns (acc: Option<real>)
      modifies `weakAccTime
      ensures acc.Some? <==> isSetParams
      ensures isSetParams ==>
        var p := params;
        var beyond := distance < p.weakStopDist || distance < p.strongStopDist;
        var time := TimeToStop(history);
        var running := Abs(velocity) > p.minRunningVel || Abs(acceleration) > p.minRunningAcc;
        var strongly :=
          if time.Some? then time.value > p.weakStopTime + delay else Abs(velocity) > p.minFastVel;
        (distance < p.strongStopDist ==> acc.value == p.strongStopAcc) &&
        (p.strongStopDist <= distance < p.weakStopDist ==> acc.value == p.weakStopAcc) &&
        (!beyond && running ==> acc.value == if strongly then strongAcc else p.weakAcc) &&
        (!beyond && !running ==>
          acc.value == if now - weakAccTime < 0.5 then p.weakAcc else p.strongStopAcc) &&
        weakAccTime ==
          if !beyond && running && !strongly then now else old(weakAccTime)
      ensures !isSetParams ==> weakAccTime == old(weakAccTime)
    {
      hide TimeToStop;
      if !isSetParams { return None; }
      var p := params;
      var initialised, time := CalcTimeToStop(history);
      var isFastVel := Abs(velocity) > p.minFastVel;
      var isRunning := Abs(velocity) > p.minRunningVel || Abs(acceleration) > p.minRunningAcc;
      if distance < p.strongStopDist {
        return Some(p.strongStopAcc);
      } else if distance < p.weakStopDist {
        return Some(p.weakStopAcc);
      }
      if isRunning {
        if time.Some? && time.value > p.weakStopTime + delay {
          return Some(strongAcc);
        } else if time.None? && isFastVel {
          return Some(strongAcc);
        }
        weakAccTime := now;
        return Some(p.weakAcc);
      }
      if now - weakAccTime < 0.5 { return Some(p.weakAcc); }
      acc := Some(p.strongStopAcc);
    }
  }

  lemma QuotientSum(a: real, b: real, n: real)
    requires n != 0.0
    ensures a / n + b / n == (a + b) / n
  {
    var p, q, r := a / n, b / n, (a + b) / n;
    assert p * n == a && q * n == b && r * n == a + b;
    assert (p + q - r) * n == 0.0;
  }

  /** Where a limit binds it is taken: the mildest braking that would still stop too early, and the
      hardest when even that stops too late or the distance is gone. */
  lemma StrongAccLimits(p: Params, velocity: real, distance: real)
    requires p.minStrongAcc <= p.maxStrongAcc
    ensures var a := StrongAcc(p, velocity, distance);
            && (distance < EPSILON ==> a == p.minStrongAcc)
            && (distance >= EPSILON && Square(velocity) + 2.0 * p.minStrongAcc * distance > 0.0 ==> a == p.minStrongAcc)
            && (distance >= EPSILON && Square(velocity) + 2.0 * p.maxStrongAcc * distance < 0.0 ==> a == p.maxStrongAcc)
  {
    hide Square;
    if distance >= EPSILON {
      var a, d := -Square(velocity) / (2.0 * distance), 2.0 * distance;
      assert a * d == -Square(velocity);
      MultSign(a - p.minStrongAcc, d);
      MultSign(a - p.maxStrongAcc, d);
      assert (a - p.minStrongAcc) * d == -Square(velocity) - 2.0 * p.minStrongAcc * distance;
      assert (a - p.maxStrongAcc) * d == -Square(velocity) - 2.0 * p.maxStrongAcc * distance;
    }
  }

  /** The strong acceleration stays within its limits, and when they do not bind it stops the
      vehicle exactly in the predicted distance: v^2 + 2 a d == 0. */
  lemma StrongAccStops(p: Params, velocity: real, distance: real)
    requires p.minStrongAcc <= p.maxStrongAcc
    ensures var a := StrongAcc(p, velocity, distance);
            p.minStrongAcc <= a <= p.maxStrongAcc &&
            (distance >= EPSILON && p.minStrongAcc < a < p.maxStrongAcc ==>
              Square(velocity) + 2.0 * a * distance == 0.0)
  {
    hide Square;
    if distance >= EPSILON {
      var a := -Square(velocity) / (2.0 * distance);
      assert a * (2.0 * distance) == -Square(velocity);
    }
  }
}
