/** The limiters applied to every control command, and what they guarantee over whole runs.

    The tangent and its inverse are parameters with the laws that are used. */
module VehicleCmdFilter {
  import opened Scalars

  datatype Command = Command(steer: real, steerRate: real, speed: real, acceleration: real)

  const STOPPED := Command(0.0, 0.0, 0.0, 0.0)

  datatype Param = Param(
    wheelBase: real, velLim: real, lonAccLim: real, lonJerkLim: real,
    latAccLim: real, latJerkLim: real, actualSteerDiffLim: real)
  {
    /** Limits that can be kept. */
    predicate Sane() {
      wheelBase > 0.0 && velLim >= 0.0 && lonAccLim >= 0.0 && lonJerkLim >= 0.0 &&
      latAccLim >= 0.0 && latJerkLim >= 0.0 && actualSteerDiffLim >= 0.0
    }
  }

  datatype Trig = Trig(tan: real -> real, atan: real -> real, quarter: real) {
    ghost predicate Lawful() {
      (forall x :: tan(atan(x)) == x) && (forall x, y :: x == -y ==> tan(x) == -tan(y))
    }

    /** The tangent increases between minus and plus a quarter turn, where its inverse lies. */
    ghost predicate Increasing() {
      (forall x :: Abs(atan(x)) < quarter) &&
      (forall x, y :: Abs(x) < quarter && Abs(y) < quarter && x <= y ==> tan(x) <= tan(y))
    }
  }

  function LimitDiff(curr: real, prev: real, lim: real): real {
    prev + Max(Min(curr - prev, lim), -lim)
  }

  // ----- the limiters -----

  function LatAcc(t: Trig, p: Param, c: Command): real
    requires p.wheelBase > 0.0
  {
    Centripetal(Square(c.speed), t.tan(c.steer), p.wheelBase)
  }

  function Centripetal(v: real, curve: real, w: real): real
    requires w > 0.0
  {
    v * curve / w
  }

  function SquaredSpeed(v: real): (r: real)
    ensures r >= 0.001
  {
    Max(Square(v), 0.001)
  }

  function SteerFromLatAcc(t: Trig, p: Param, v: real, latAcc: real): real
  {
    t.atan(latAcc * p.wheelBase / SquaredSpeed(v))
  }

  /** How far speed and acceleration may move in dt. */
  function SpeedReach(p: Param, dt: real): real { p.lonAccLim * dt }

  function JerkReach(p: Param, dt: real): real { p.lonJerkLim * dt }

  function LatReach(p: Param, dt: real): real { p.latJerkLim * dt }

  function WithJerk(p: Param, prev: Command, dt: real, c: Command): Command {
    c.(acceleration := LimitDiff(c.acceleration, prev.acceleration, JerkReach(p, dt)))
  }

  function WithAcc(p: Param, prev: Command, dt: real, c: Command): Command {
    c.(acceleration := Max(Min(c.acceleration, p.lonAccLim), -p.lonAccLim),
       speed := LimitDiff(c.speed, prev.speed, SpeedReach(p, dt)))
  }

  function WithVel(p: Param, c: Command): Command {
    c.(speed := Max(Min(c.speed, p.velLim), -p.velLim))
  }

  function WithLatJerk(t: Trig, p: Param, prev: Command, dt: real, c: Command): Command
    requires p.wheelBase > 0.0
  {
    var hi := LatAcc(t, p, prev) + LatReach(p, dt);
    var lo := LatAcc(t, p, prev) - LatReach(p, dt);
    if LatAcc(t, p, c) > hi then c.(steer := SteerFromLatAcc(t, p, c.speed, hi))
    else if LatAcc(t, p, c) < lo then c.(steer := SteerFromLatAcc(t, p, c.speed, lo))
    else c
  }

  function WithLatAcc(t: Trig, p: Param, c: Command): Command
    requires p.wheelBase > 0.0
  {
    if Abs(LatAcc(t, p, c)) > p.latAccLim then
      var lim := SteerFromLatAcc(t, p, c.speed, p.latAccLim);
      c.(steer := if LatAcc(t, p, c) > 0.0 then lim else -lim)
    else c
  }

  function WithSteerDiff(p: Param, actual: real, c: Command): Command {
    c.(steer := actual + Clamp(c.steer - actual, -p.actualSteerDiffLim, p.actualSteerDiffLim))
  }

  function Longitudinal(p: Param, prev: Command, dt: real, c: Command): Command {
    WithVel(p, WithAcc(p, prev, dt, WithJerk(p, prev, dt, c)))
  }

  function FilterAll(t: Trig, p: Param, prev: Command, dt: real, actual: real, c: Command): Command
    requires p.wheelBase > 0.0
  {
    WithSteerDiff(p, actual, WithLatAcc(t, p, WithLatJerk(t, p, prev, dt, Longitudinal(p, prev, dt, c))))
  }

  predicate Within(x: real, lo: real, hi: real) { lo <= x <= hi }

  /** No value between lo and hi is closer to x than y, which is one of them. */
  ghost predicate IsNearest(x: real, y: real, lo: real, hi: real) {
    Within(y, lo, hi) && forall z :: Within(z, lo, hi) ==> Abs(y - x) <= Abs(z - x)
  }

  ghost predicate IsInReach(x: real, y: real, from: real, reach: real) {
    IsNearest(x, y, from - reach, from + reach)
  }

  class VehicleCmdFilter {
    const t: Trig
    var param: Param
    var prevCmd: Command

    constructor (t: Trig, p: Param)
      ensures this.t == t && param == p && prevCmd == STOPPED
    {
      this.t := t;
      param, prevCmd := p, STOPPED;
    }

    method SetPrevCmd(c: Command)
      modifies `prevCmd
      ensures prevCmd == c
    {
      prevCmd := c;
    }

    /** Moves the speed to the nearest allowed one. */
    method LimitLongitudinalWithVel(input: Command) returns (c: Command)
      ensures c == WithVel(param, input)
      ensures param.velLim >= 0.0 ==> IsNearest(input.speed, c.speed, -param.velLim, param.velLim)
    {
      c := input.(speed := Max(Min(input.speed, param.velLim), -param.velLim));
    }

    /** Moves the acceleration to the nearest allowed one and the speed to the nearest one in reach of
        the previous speed. */
    method LimitLongitudinalWithAcc(dt: real, input: Command) returns (c: Command)
      ensures c == WithAcc(param, prevCmd, dt, input)
      ensures param.lonAccLim >= 0.0 ==>
        IsNearest(input.acceleration, c.acceleration, -param.lonAccLim, param.lonAccLim)
      ensures param.lonAccLim * dt >= 0.0 ==>
        IsInReach(input.speed, c.speed, prevCmd.speed, param.lonAccLim * dt)
    {
      c := input.(acceleration := Max(Min(input.acceleration, param.lonAccLim), -param.lonAccLim));
      c := c.(speed := LimitDiff(c.speed, prevCmd.speed, param.lonAccLim * dt));
    }

    /** Moves the acceleration to the nearest one in reach of the previous acceleration. */
    method LimitLongitudinalWithJerk(dt: real, input: Command) returns (c: Command)
      ensures c == WithJerk(param, prevCmd, dt, input)
      ensures param.lonJerkLim * dt >= 0.0 ==>
        IsInReach(input.acceleration, c.acceleration, prevCmd.acceleration, param.lonJerkLim * dt)
    {
      c := input.(acceleration := LimitDiff(input.acceleration, prevCmd.acceleration, param.lonJerkLim * dt));
    }

    /** Changes the steering only to keep the lateral acceleration in its limits, at any speed; of a
        moving vehicle it becomes the nearest allowed one. */
    method LimitLateralWithLatAcc(input: Command) returns (c: Command)
      requires param.wheelBase > 0.0
      ensures c == WithLatAcc(t, param, input)
      ensures Abs(LatAcc(t, param, input)) <= param.latAccLim ==> c == input
      ensures param.Sane() && t.Lawful() ==> Abs(LatAcc(t, param, c)) <= param.latAccLim
      ensures param.Sane() && t.Lawful() && Moving(input) ==>
        IsNearest(LatAcc(t, param, input), LatAcc(t, param, c), -param.latAccLim, param.latAccLim)
    {
      hide Param.Sane, Trig.Lawful, LatAcc, SteerFromLatAcc, Moving, IsNearest, Abs;
      c := input;
      var latAcc := LatAcc(t, param, input);
      if Abs(latAcc) > param.latAccLim {
        var steerLim := SteerFromLatAcc(t, param, input.speed, param.latAccLim);
        c := c.(steer := if latAcc > 0.0 then steerLim else -steerLim);
      }
      if param.Sane() && t.Lawful() {
        LatAccIsBounded(t, param, input);
        if Moving(input) { LatAccIsNearest(t, param, input); }
      }
    }

    /** Changes the steering only when the lateral acceleration leaves the reach of the previous one;
        of a moving vehicle it becomes the nearest one in reach. */
    method LimitLateralWithLatJerk(dt: real, input: Command) returns (c: Command)
      requires param.wheelBase > 0.0
      ensures c == WithLatJerk(t, param, prevCmd, dt, input)
      ensures LatReach(param, dt) == param.latJerkLim * dt
      ensures Abs(LatAcc(t, param, input) - LatAcc(t, param, prevCmd)) <= LatReach(param, dt) ==> c == input
      ensures param.Sane() && t.Lawful() && dt >= 0.0 && Moving(input) ==>
        IsInReach(LatAcc(t, param, input), LatAcc(t, param, c), LatAcc(t, param, prevCmd), LatReach(param, dt))
    {
      hide Param.Sane, Trig.Lawful, LatAcc, SteerFromLatAcc, Moving, IsInReach, LatReach;
      ReachIs(param, dt);
      c := input;
      var curr, prev := LatAcc(t, param, input), LatAcc(t, param, prevCmd);
      var hi, lo := prev + LatReach(param, dt), prev - LatReach(param, dt);
      if curr > hi {
        c := c.(steer := SteerFromLatAcc(t, param, input.speed, hi));
      } else if curr < lo {
        c := c.(steer := SteerFromLatAcc(t, param, input.speed, lo));
      }
      if param.Sane() && t.Lawful() && dt >= 0.0 && Moving(input) { LatJerkIsNearest(t, param, prevCmd, dt, input); }
    }

    /** Moves the steering to the nearest one in reach of the actual steering. */
    method LimitActualSteerDiff(actual: real, input: Command) returns (c: Command)
      ensures c == WithSteerDiff(param, actual, input)
      ensures param.actualSteerDiffLim >= 0.0 ==>
        IsInReach(input.steer, c.steer, actual, param.actualSteerDiffLim)
    {
      var ds := input.steer - actual;
      ds := Clamp(ds, -param.actualSteerDiffLim, param.actualSteerDiffLim);
      c := input.(steer := actual + ds);
    }

    method FilterCommand(dt: real, actual: real, input: Command) returns (c: Command)
      requires param.wheelBase > 0.0
      ensures c == FilterAll(t, param, prevCmd, dt, actual, input)
    {
      c := LimitLongitudinalWithJerk(dt, input);
      c := LimitLongitudinalWithAcc(dt, c);
      c := LimitLongitudinalWithVel(c);
      c := LimitLateralWithLatJerk(dt, c);
      c := LimitLateralWithLatAcc(c);
      c := LimitActualSteerDiff(actual, c);
    }
  }

  // ----- one command -----

  predicate WithinLimits(p: Param, c: Command) {
    Abs(c.speed) <= p.velLim && Abs(c.acceleration) <= p.lonAccLim
  }

  lemma ReachIs(p: Param, dt: real)
    ensures SpeedReach(p, dt) == p.lonAccLim * dt && JerkReach(p, dt) == p.lonJerkLim * dt
    ensures LatReach(p, dt) == p.latJerkLim * dt
  {
  }

  lemma ReachesForward(p: Param, dt: real)
    requires p.Sane() && dt >= 0.0
    ensures SpeedReach(p, dt) >= 0.0 && JerkReach(p, dt) >= 0.0 && LatReach(p, dt) >= 0.0
  {
    MultSign(p.latJerkLim, dt);
    MultSign(p.lonAccLim, dt);
    MultSign(p.lonJerkLim, dt);
  }

  /** The two clamps in the order of the source: the change first, then the value. */
  function ChangeThenValue(curr: real, prev: real, reach: real, lim: real): real {
    Max(Min(LimitDiff(curr, prev, reach), lim), -lim)
  }

  lemma ClampsAgree(curr: real, prev: real, reach: real, lim: real)
    requires reach >= 0.0 && lim >= 0.0
    ensures Abs(ChangeThenValue(curr, prev, reach, lim)) <= lim
    ensures Abs(prev) <= lim ==> Abs(ChangeThenValue(curr, prev, reach, lim) - prev) <= reach
    ensures Abs(curr) <= lim && Abs(curr - prev) <= reach ==> ChangeThenValue(curr, prev, reach, lim) == curr
    ensures Abs(prev) <= lim && curr == 0.0 ==>
      Abs(ChangeThenValue(curr, prev, reach, lim)) == Max(0.0, Abs(prev) - reach)
  {
  }

  lemma SteerClamped(x: real, actual: real, lim: real)
    requires lim >= 0.0
    ensures Abs(actual + Clamp(x - actual, -lim, lim) - actual) <= lim
    ensures Abs(x - actual) <= lim ==> actual + Clamp(x - actual, -lim, lim) == x
  {
  }

  /** Lateral limiters leave speed and acceleration alone. */
  lemma FilterParts(t: Trig, p: Param, prev: Command, dt: real, actual: real, c: Command)
    requires p.Sane()
    ensures var o := FilterAll(t, p, prev, dt, actual, c);
            o.speed == ChangeThenValue(c.speed, prev.speed, SpeedReach(p, dt), p.velLim) &&
            o.acceleration == ChangeThenValue(c.acceleration, prev.acceleration, JerkReach(p, dt), p.lonAccLim) &&
            Abs(o.steer - actual) <= p.actualSteerDiffLim
  {
    hide LatAcc, SteerFromLatAcc, SpeedReach, JerkReach, LimitDiff, Max, Min, Abs, Clamp;
    SteerClamped(WithLatAcc(t, p, WithLatJerk(t, p, prev, dt, Longitudinal(p, prev, dt, c))).steer,
                 actual, p.actualSteerDiffLim);
  }

  /** The sequential clamps do not undo each other: the result is in its limits and within reach of
      the previous output. */
  lemma FilterLimits(t: Trig, p: Param, prev: Command, dt: real, actual: real, c: Command)
    requires p.Sane() && dt >= 0.0 && WithinLimits(p, prev)
    ensures var o := FilterAll(t, p, prev, dt, actual, c);
            WithinLimits(p, o) &&
            Abs(o.speed - prev.speed) <= SpeedReach(p, dt) == p.lonAccLim * dt &&
            Abs(o.acceleration - prev.acceleration) <= JerkReach(p, dt) == p.lonJerkLim * dt &&
            Abs(o.steer - actual) <= p.actualSteerDiffLim
  {
    ReachIs(p, dt);
    hide FilterAll, SpeedReach, JerkReach, ChangeThenValue, Abs;
    ReachesForward(p, dt);
    FilterParts(t, p, prev, dt, actual, c);
    ClampsAgree(c.speed, prev.speed, SpeedReach(p, dt), p.velLim);
    ClampsAgree(c.acceleration, prev.acceleration, JerkReach(p, dt), p.lonAccLim);
  }

  /** A command that already respects the limits passes unchanged lengthwise. */
  lemma FilterIsTransparent(t: Trig, p: Param, prev: Command, dt: real, actual: real, c: Command)
    requires p.Sane() && dt >= 0.0 && WithinLimits(p, c)
    requires Abs(c.speed - prev.speed) <= SpeedReach(p, dt)
    requires Abs(c.acceleration - prev.acceleration) <= JerkReach(p, dt)
    ensures var o := FilterAll(t, p, prev, dt, actual, c);
            o.speed == c.speed && o.acceleration == c.acceleration
  {
    hide FilterAll, SpeedReach, JerkReach, ChangeThenValue, Abs;
    ReachesForward(p, dt);
    FilterParts(t, p, prev, dt, actual, c);
    ClampsAgree(c.speed, prev.speed, SpeedReach(p, dt), p.velLim);
    ClampsAgree(c.acceleration, prev.acceleration, JerkReach(p, dt), p.lonAccLim);
  }

  /** Towards zero speed the filter brakes at the acceleration limit and never overshoots. */
  lemma ZeroSpeedBrakes(t: Trig, p: Param, prev: Command, dt: real, actual: real, c: Command)
    requires p.Sane() && dt >= 0.0 && Abs(prev.speed) <= p.velLim && c.speed == 0.0
    ensures Abs(FilterAll(t, p, prev, dt, actual, c).speed) == Max(0.0, Abs(prev.speed) - SpeedReach(p, dt))
  {
    hide FilterAll, SpeedReach, JerkReach, ChangeThenValue, Abs, Max;
    ReachesForward(p, dt);
    FilterParts(t, p, prev, dt, actual, c);
    ClampsAgree(c.speed, prev.speed, SpeedReach(p, dt), p.velLim);
  }

  // ----- runs -----

  /** previousSteer: the steering kept for comparison, which in manual mode is the actual one. */
  datatype Input = Input(dt: real, previousSteer: real, actual: real, command: Command)

  /** Outputs of consecutive commands, each limited against the previous one. */
  function Outputs(t: Trig, p: Param, start: Command, inputs: seq<Input>): (outs: seq<Command>)
    requires p.wheelBase > 0.0
    ensures |outs| == |inputs|
  {
    if inputs == [] then []
    else
      var n := |inputs| - 1;
      var before := Outputs(t, p, start, inputs[..n]);
      var last := if n == 0 then start else before[n - 1];
      before + [FilterAll(t, p, Previous(last, inputs[n]), inputs[n].dt, inputs[n].actual, inputs[n].command)]
  }

  function Previous(last: Command, i: Input): Command {
    last.(steer := i.previousSteer)
  }

  predicate TimesForward(inputs: seq<Input>) {
    forall i :: 0 <= i < |inputs| ==> inputs[i].dt >= 0.0
  }

  function LastOf(start: Command, outs: seq<Command>, i: nat): Command
    requires i <= |outs|
  {
    if i == 0 then start else outs[i - 1]
  }

  /** Output i is in the limits and close to the one before. */
  predicate Limited(p: Param, start: Command, outs: seq<Command>, inputs: seq<Input>, i: nat)
    requires i < |outs| <= |inputs|
  {
    var last := LastOf(start, outs, i);
    && WithinLimits(p, outs[i])
    && Abs(outs[i].speed - last.speed) <= SpeedReach(p, inputs[i].dt)
    && Abs(outs[i].acceleration - last.acceleration) <= JerkReach(p, inputs[i].dt)
    && Abs(outs[i].steer - inputs[i].actual) <= p.actualSteerDiffLim
  }

  /** One more command at the end of a run. */
  lemma LastOutput(t: Trig, p: Param, start: Command, inputs: seq<Input>)
    requires p.Sane() && inputs != []
    ensures var n := |inputs| - 1;
            var before, outs := Outputs(t, p, start, inputs[..n]), Outputs(t, p, start, inputs);
            outs[..n] == before &&
            outs[n] == FilterAll(t, p, Previous(LastOf(start, before, n), inputs[n]),
                                 inputs[n].dt, inputs[n].actual, inputs[n].command)
  {
    hide FilterAll;
  }

  /** Over any run every output is in the limits and each change is bounded by the limit times the
      time passed. */
  lemma {:induction false} RunStaysInLimits(t: Trig, p: Param, start: Command, inputs: seq<Input>)
    requires p.Sane() && TimesForward(inputs) && WithinLimits(p, start)
    ensures forall i :: 0 <= i < |inputs| ==> Limited(p, start, Outputs(t, p, start, inputs), inputs, i)
  {
    hide FilterAll, Abs, WithinLimits, SpeedReach, JerkReach, Outputs;
    if inputs != [] {
      var n := |inputs| - 1;
      var before, outs := Outputs(t, p, start, inputs[..n]), Outputs(t, p, start, inputs);
      RunStaysInLimits(t, p, start, inputs[..n]);
      LastOutput(t, p, start, inputs);
      forall i | 0 <= i < n ensures Limited(p, start, outs, inputs, i) {
        assert Limited(p, start, before, inputs[..n], i);
        assert outs[i] == before[i] && LastOf(start, outs, i) == LastOf(start, before, i);
      }
      var last := LastOf(start, before, n);
      assert LastOf(start, outs, n) == last;
      if n > 0 { assert Limited(p, start, before, inputs[..n], n - 1); }
      SteerIrrelevant(p, last, inputs[n]);
      FilterLimits(t, p, Previous(last, inputs[n]), inputs[n].dt, inputs[n].actual, inputs[n].command);
    }
  }

  lemma SteerIrrelevant(p: Param, last: Command, i: Input)
    ensures WithinLimits(p, Previous(last, i)) <==> WithinLimits(p, last)
  {
  }

  function Elapsed(inputs: seq<Input>): real {
    if inputs == [] then 0.0 else Elapsed(inputs[..|inputs| - 1]) + inputs[|inputs| - 1].dt
  }

  /** While only zero speed is asked for, the speed after n commands is the initial one less the
      limit times the total time, never below zero: it reaches a stop. */
  lemma {:induction false} StopRun(t: Trig, p: Param, start: Command, inputs: seq<Input>)
    requires p.Sane() && TimesForward(inputs) && WithinLimits(p, start)
    requires forall i :: 0 <= i < |inputs| ==> inputs[i].command.speed == 0.0
    ensures Abs(LastOf(start, Outputs(t, p, start, inputs), |inputs|).speed) ==
            Braked(p, Abs(start.speed), Elapsed(inputs))
  {
    hide FilterAll, Outputs, SpeedReach, WithinLimits;
    if inputs == [] {
      assert p.lonAccLim * 0.0 == 0.0;
    } else {
      hide Abs, Max, Elapsed, Braked;
      var n := |inputs| - 1;
      var before := Outputs(t, p, start, inputs[..n]);
      var last := LastOf(start, before, n);
      RunStaysInLimits(t, p, start, inputs[..n]);
      if n > 0 { assert Limited(p, start, before, inputs[..n], n - 1); }
      WithinSpeed(p, last);
      LastOutput(t, p, start, inputs);
      ZeroSpeedBrakes(t, p, Previous(last, inputs[n]), inputs[n].dt, inputs[n].actual, inputs[n].command);
      StopRun(t, p, start, inputs[..n]);
      ElapsedForward(inputs[..n]);
      SaneLimits(p);
      ElapsedNext(inputs);
      StepsAdd(p, Abs(start.speed), Elapsed(inputs[..n]), inputs[n].dt, Elapsed(inputs));
    }
  }

  /** What is left of a speed after braking at the limit for some time. */
  function Braked(p: Param, v: real, time: real): real {
    Max(0.0, v - p.lonAccLim * time)
  }

  lemma WithinSpeed(p: Param, c: Command)
    requires WithinLimits(p, c)
    ensures Abs(c.speed) <= p.velLim
  {
  }

  lemma SaneLimits(p: Param)
    requires p.Sane()
    ensures p.lonAccLim >= 0.0
  {
  }

  lemma ElapsedNext(inputs: seq<Input>)
    requires inputs != []
    ensures Elapsed(inputs) == Elapsed(inputs[..|inputs| - 1]) + inputs[|inputs| - 1].dt
  {
  }

  lemma {:induction false} ElapsedForward(inputs: seq<Input>)
    requires TimesForward(inputs)
    ensures Elapsed(inputs) >= 0.0
  {
    if inputs != [] { ElapsedForward(inputs[..|inputs| - 1]); }
  }

  lemma StepsAdd(p: Param, v: real, t: real, dt: real, total: real)
    requires p.lonAccLim >= 0.0 && t >= 0.0 && dt >= 0.0 && total == t + dt
    ensures Max(0.0, Braked(p, v, t) - SpeedReach(p, dt)) == Braked(p, v, total)
  {
    var a := p.lonAccLim;
    MultSign(a, dt);
    assert a * total == a * t + a * dt;
    Nested(v, a * t, a * dt);
  }

  lemma Nested(v: real, x: real, y: real)
    requires y >= 0.0
    ensures Max(0.0, Max(0.0, v - x) - y) == Max(0.0, v - (x + y))
  {
  }

  // ----- lateral -----

  lemma SteerGivesLatAcc(t: Trig, p: Param, c: Command, latAcc: real)
    requires p.Sane() && t.Lawful()
    ensures LatAcc(t, p, c.(steer := SteerFromLatAcc(t, p, c.speed, latAcc))) * SquaredSpeed(c.speed) ==
            latAcc * Square(c.speed)
  {
    hide Square;
    var s := SquaredSpeed(c.speed);
    var x := latAcc * p.wheelBase / s;
    var v := Square(c.speed);
    assert t.tan(t.atan(x)) == x;
    LatAccAlgebra(v, x, latAcc, p.wheelBase, s, LatAcc(t, p, c.(steer := t.atan(x))));
  }

  lemma LatAccAlgebra(v: real, x: real, a: real, w: real, s: real, r: real)
    requires w > 0.0 && s > 0.0 && x == a * w / s && r == v * x / w
    ensures r * s == a * v
  {
    assert x * s == a * w;
    assert r * w == v * x;
    assert (r * s) * w == v * (x * s) == (a * v) * w;
    CancelFactor(r * s, a * v, w);
  }

  lemma TanOfOpposite(t: Trig, x: real, y: real)
    requires t.Lawful() && x == -y
    ensures t.tan(x) == -t.tan(y)
  {
  }

  lemma LatAccOfOpposite(t: Trig, p: Param, c: Command, steer: real)
    requires p.Sane() && t.Lawful()
    ensures LatAcc(t, p, c.(steer := -steer)) == -LatAcc(t, p, c.(steer := steer))
  {
    TanOfOpposite(t, -steer, steer);
    var v := Square(c.speed);
    Opposite(v, t.tan(steer), t.tan(-steer), p.wheelBase);
  }

  lemma Opposite(v: real, x: real, y: real, w: real)
    requires w > 0.0 && y == -x
    ensures v * y / w == -(v * x / w)
  {
    var a, b := v * y / w, v * x / w;
    assert a * w == v * y && b * w == v * x;
    CancelFactor(a, -b, w);
  }

  lemma SquaredAtMost(v: real)
    ensures 0.0 <= Square(v) <= SquaredSpeed(v)
  {
    hide Mult;
    SquareSign(v);
  }

  lemma ScaledDown(r: real, a: real, v: real, s: real)
    requires a >= 0.0 && 0.0 <= v <= s && s > 0.0 && r * s == a * v
    ensures 0.0 <= r <= a
  {
    MultSign(a, v);
    MultSign(a, s - v);
    if r < 0.0 { MultSign(r, s); }
    if r > a { MultSign(a - r, s); }
  }

  /** The lateral acceleration limiter bounds the lateral acceleration, at any speed. */
  lemma LatAccIsBounded(t: Trig, p: Param, c: Command)
    requires p.Sane() && t.Lawful()
    ensures Abs(LatAcc(t, p, WithLatAcc(t, p, c))) <= p.latAccLim
  {
    hide LatAcc, SteerFromLatAcc, Trig.Lawful, Square;
    if Abs(LatAcc(t, p, c)) > p.latAccLim {
      var lim := SteerFromLatAcc(t, p, c.speed, p.latAccLim);
      var r := LatAcc(t, p, c.(steer := lim));
      SteerGivesLatAcc(t, p, c, p.latAccLim);
      SquaredAtMost(c.speed);
      ScaledDown(r, p.latAccLim, Square(c.speed), SquaredSpeed(c.speed));
      LatAccOfOpposite(t, p, c, lim);
    }
  }

  /** Where the limiter acts it reaches the limit, on the side of the command. */
  lemma LatAccIsNearest(t: Trig, p: Param, c: Command)
    requires p.Sane() && t.Lawful() && Moving(c)
    ensures IsNearest(LatAcc(t, p, c), LatAcc(t, p, WithLatAcc(t, p, c)), -p.latAccLim, p.latAccLim)
  {
    hide LatAcc, SteerFromLatAcc, Trig.Lawful, Moving;
    SteerReaches(t, p, c, p.latAccLim);
    LatAccOfOpposite(t, p, c, SteerFromLatAcc(t, p, c.speed, p.latAccLim));
  }

  /** After all limiters it is bounded whenever the last one, which follows the actual steering, has
      nothing to clamp. */
  lemma FilteredLatAcc(t: Trig, p: Param, prev: Command, dt: real, actual: real, c: Command)
    requires p.Sane() && t.Lawful()
    ensures var l := WithLatAcc(t, p, WithLatJerk(t, p, prev, dt, Longitudinal(p, prev, dt, c)));
            Abs(l.steer - actual) <= p.actualSteerDiffLim ==>
              FilterAll(t, p, prev, dt, actual, c) == l &&
              Abs(LatAcc(t, p, FilterAll(t, p, prev, dt, actual, c))) <= p.latAccLim
  {
    hide LatAcc, SteerFromLatAcc, Trig.Lawful, Longitudinal, WithLatAcc, WithLatJerk;
    var j := WithLatJerk(t, p, prev, dt, Longitudinal(p, prev, dt, c));
    LatAccIsBounded(t, p, j);
    SteerClamped(WithLatAcc(t, p, j).steer, actual, p.actualSteerDiffLim);
  }

  /** The output exceeds the limit only as far as the actual steering does at the same speed, for
      angles below a quarter turn. */
  lemma LatAccFollowsActual(t: Trig, p: Param, prev: Command, dt: real, actual: real, c: Command)
    requires p.Sane() && t.Lawful() && t.Increasing() && Abs(actual) < t.quarter && Abs(c.steer) < t.quarter
    ensures var o := FilterAll(t, p, prev, dt, actual, c);
            Abs(LatAcc(t, p, o)) <= Max(p.latAccLim, Abs(LatAcc(t, p, o.(steer := actual))))
  {
    hide LatAcc, SteerFromLatAcc, Trig.Lawful, Trig.Increasing, WithLatAcc, WithLatJerk;
    var j := WithLatJerk(t, p, prev, dt, Longitudinal(p, prev, dt, c));
    var l := WithLatAcc(t, p, j);
    var o := FilterAll(t, p, prev, dt, actual, c);
    LateralSteers(t, p, prev, dt, Longitudinal(p, prev, dt, c));
    LatAccIsBounded(t, p, j);
    assert o == l.(steer := o.steer) && (actual <= o.steer <= l.steer || l.steer <= o.steer <= actual);
    if actual <= l.steer {
      LatAccMonotone(t, p, l, actual, o.steer);
      LatAccMonotone(t, p, l, o.steer, l.steer);
    } else {
      LatAccMonotone(t, p, l, l.steer, o.steer);
      LatAccMonotone(t, p, l, o.steer, actual);
    }
    assert l.(steer := l.steer) == l && l.(steer := actual) == o.(steer := actual);
  }

  /** The lateral limiters choose angles below a quarter turn. */
  lemma LateralSteers(t: Trig, p: Param, prev: Command, dt: real, c: Command)
    requires p.Sane() && t.Increasing() && Abs(c.steer) < t.quarter
    ensures Abs(WithLatAcc(t, p, WithLatJerk(t, p, prev, dt, c)).steer) < t.quarter
  {
    hide LatAcc;
  }

  lemma LatAccMonotone(t: Trig, p: Param, c: Command, lo: real, hi: real)
    requires p.Sane() && t.Increasing() && Abs(lo) < t.quarter && Abs(hi) < t.quarter && lo <= hi
    ensures LatAcc(t, p, c.(steer := lo)) <= LatAcc(t, p, c.(steer := hi))
  {
    hide Square, Centripetal;
    var v, x, y, w := Square(c.speed), t.tan(lo), t.tan(hi), p.wheelBase;
    SquareSign(c.speed);
    assert x <= y;
    ScaledOrder(v, x, y, w);
  }

  lemma ScaledOrder(v: real, x: real, y: real, w: real)
    requires v >= 0.0 && x <= y && w > 0.0
    ensures Centripetal(v, x, w) <= Centripetal(v, y, w)
  {
    MultSign(v, y - x);
    var a, b := Centripetal(v, x, w), Centripetal(v, y, w);
    assert (b - a) * w == v * (y - x);
    if b < a { MultSign(b - a, w); }
  }

  // ----- lateral jerk -----

  /** Fast enough for the square of the speed to be used as it is. */
  predicate Moving(c: Command) {
    Square(c.speed) >= 0.001
  }

  lemma MovingSquare(c: Command)
    requires Moving(c)
    ensures SquaredSpeed(c.speed) == Square(c.speed) >= 0.001
  {
    hide Square;
  }

  lemma SteerReaches(t: Trig, p: Param, c: Command, latAcc: real)
    requires p.Sane() && t.Lawful() && Moving(c)
    ensures LatAcc(t, p, c.(steer := SteerFromLatAcc(t, p, c.speed, latAcc))) == latAcc
  {
    hide LatAcc, SteerFromLatAcc, Trig.Lawful, SquaredSpeed, Moving, Square;
    var r := LatAcc(t, p, c.(steer := SteerFromLatAcc(t, p, c.speed, latAcc)));
    MovingSquare(c);
    SteerGivesLatAcc(t, p, c, latAcc);
    CancelFactor(r, latAcc, SquaredSpeed(c.speed));
  }

  /** The change of lateral acceleration is within reach after the limiter. */
  predicate JerkKept(t: Trig, p: Param, prev: Command, dt: real, c: Command)
    requires p.wheelBase > 0.0
  {
    Abs(LatAcc(t, p, WithLatJerk(t, p, prev, dt, c)) - LatAcc(t, p, prev)) <= LatReach(p, dt)
  }

  /** The angle for a target is computed for a squared speed s of at least 0.001, so at the squared
      speed v of the command the target shrinks by v / s; it must stay in the window. */
  predicate TargetInReach(t: Trig, p: Param, prev: Command, dt: real, c: Command)
    requires p.wheelBase > 0.0
  {
    var lo, hi := LatAcc(t, p, prev) - LatReach(p, dt), LatAcc(t, p, prev) + LatReach(p, dt);
    var s, v := SquaredSpeed(c.speed), Square(c.speed);
    if LatAcc(t, p, c) > hi then lo * s <= hi * v <= hi * s
    else if LatAcc(t, p, c) < lo then lo * s <= lo * v <= hi * s
    else true
  }

  /** The lateral jerk limiter keeps its bound, at any speed, if and only if the target it steers to is
      still in the window once it has shrunk. */
  lemma LatJerkBoundedIff(t: Trig, p: Param, prev: Command, dt: real, c: Command)
    requires p.Sane() && t.Lawful() && dt >= 0.0
    ensures JerkKept(t, p, prev, dt, c) <==> TargetInReach(t, p, prev, dt, c)
  {
    hide LatAcc, SteerFromLatAcc, Trig.Lawful, Square, LatReach, SquaredSpeed;
    var a, r, s, v := LatAcc(t, p, prev), LatReach(p, dt), SquaredSpeed(c.speed), Square(c.speed);
    var o := LatAcc(t, p, WithLatJerk(t, p, prev, dt, c));
    ReachesForward(p, dt);
    if LatAcc(t, p, c) > a + r {
      SteerGivesLatAcc(t, p, c, a + r);
      ShrunkInWindow(o, a + r, v, s, a, r);
    } else if LatAcc(t, p, c) < a - r {
      SteerGivesLatAcc(t, p, c, a - r);
      ShrunkInWindow(o, a - r, v, s, a, r);
    }
  }

  lemma ShrunkInWindow(x: real, target: real, v: real, s: real, a: real, r: real)
    requires s > 0.0 && x * s == target * v
    ensures Abs(x - a) <= r <==> (a - r) * s <= target * v <= (a + r) * s
  {
    ScaledWindow(x, a - r, a + r, s);
  }

  lemma ScaledWindow(x: real, lo: real, hi: real, s: real)
    requires s > 0.0
    ensures lo <= x <= hi <==> lo * s <= x * s <= hi * s
  {
    if x < lo { MultSign(x - lo, s); } else { MultSign(x - lo, s); }
    if x > hi { MultSign(hi - x, s); } else { MultSign(hi - x, s); }
  }

  /** So it does at any speed that is not scaled. */
  lemma LatJerkIsBounded(t: Trig, p: Param, prev: Command, dt: real, c: Command)
    requires p.Sane() && t.Lawful() && dt >= 0.0 && Moving(c)
    ensures JerkKept(t, p, prev, dt, c)
  {
    hide LatAcc, Trig.Lawful, Moving, LatReach, JerkKept, Square;
    var a, r, s := LatAcc(t, p, prev), LatReach(p, dt), SquaredSpeed(c.speed);
    ReachesForward(p, dt);
    MovingSquare(c);
    LatJerkBoundedIff(t, p, prev, dt, c);
    ScaledWindow(a + r, a - r, a + r, s);
    ScaledWindow(a - r, a - r, a + r, s);
  }

  /** Then the lateral acceleration becomes the nearest one in reach. */
  lemma LatJerkIsNearest(t: Trig, p: Param, prev: Command, dt: real, c: Command)
    requires p.Sane() && t.Lawful() && dt >= 0.0 && Moving(c)
    ensures IsInReach(LatAcc(t, p, c), LatAcc(t, p, WithLatJerk(t, p, prev, dt, c)),
                      LatAcc(t, p, prev), LatReach(p, dt))
  {
    hide LatAcc, SteerFromLatAcc, Trig.Lawful, Moving, LatReach;
    ReachesForward(p, dt);
    SteerReaches(t, p, c, LatAcc(t, p, prev) + LatReach(p, dt));
    SteerReaches(t, p, c, LatAcc(t, p, prev) - LatReach(p, dt));
  }

  /** At a standstill no steering has lateral acceleration, so that limiter then keeps its bound
      exactly when the previous lateral acceleration is within reach of zero. */
  lemma LatJerkAtStandstill(t: Trig, p: Param, prev: Command, dt: real, c: Command)
    requires p.Sane() && c.speed == 0.0
    ensures JerkKept(t, p, prev, dt, c) <==> Abs(LatAcc(t, p, prev)) <= LatReach(p, dt)
  {
    hide SteerFromLatAcc;
    var o := WithLatJerk(t, p, prev, dt, c);
    assert o.speed == 0.0;
    NoSpeed(t, p, o);
  }

  lemma NoSpeed(t: Trig, p: Param, c: Command)
    requires p.Sane() && c.speed == 0.0
    ensures LatAcc(t, p, c) == 0.0
  {
    assert Square(c.speed) == 0.0;
    assert 0.0 * t.tan(c.steer) == 0.0;
  }

  /** A vehicle that creeps after a curve loses more of its lateral acceleration than the limit
      allows. */
  lemma SlowExample()
    ensures var t := Trig(x => x, x => x, 2.0);
            var p := Param(1.0, 20.0, 1.0, 1.0, 5.0, 1.0, 1.0);
            var prev, c := Command(0.01, 0.0, 10.0, 0.0), Command(0.0, 0.0, 0.01, 0.0);
            p.Sane() && t.Lawful() && 0.0 < Square(c.speed) < 0.001 &&
            LatAcc(t, p, prev) == 1.0 && LatReach(p, 0.1) == 0.1 && !JerkKept(t, p, prev, 0.1, c)
  {
    var t := Trig(x => x, x => x, 2.0);
    var p := Param(1.0, 20.0, 1.0, 1.0, 5.0, 1.0, 1.0);
    var prev, c := Command(0.01, 0.0, 10.0, 0.0), Command(0.0, 0.0, 0.01, 0.0);
    assert Square(c.speed) == 0.0001 && Square(prev.speed) == 100.0;
    assert LatAcc(t, p, c) == 0.0 && LatAcc(t, p, prev) == 1.0 && LatReach(p, 0.1) == 0.1;
    hide LatAcc, LatReach, Square, WithLatJerk;
    LatJerkBoundedIff(t, p, prev, 0.1, c);
  }
}
