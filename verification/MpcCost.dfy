/** The quadratic cost of the lateral MPC and the quadratic program handed to the solver.

    Weights are accumulated by overlapping block additions; their quadratic forms are the explicit
    sums of squares below. The steering input is scalar (dimU == 1), as in all vehicle models. */
module MpcCost {
  import opened Scalars
  import opened Matrices
  import opened MpcPrediction

  // ----- small matrices -----

  function AddAt(m: Matrix, i: nat, j: nat, v: real): (r: Matrix)
    requires i < m.rows && j < m.cols
    ensures r.rows == m.rows && r.cols == m.cols
  {
    AddBlock(m, i, j, Grid(1, 1, [[v]]))
  }

  lemma AddAtBil(m: Matrix, i: nat, j: nat, v: real, u: Vec, w: Vec)
    requires i < m.rows == |u| && j < m.cols == |w|
    ensures Bil(AddAt(m, i, j, v), u, w) == Bil(m, u, w) + v * u[i] * w[j]
  {
    var b: Matrix := Grid(1, 1, [[v]]);
    AddBlockBil(m, i, j, b, u, w);
    Dot1(v, w[j]);
    assert MulVec(b, [w[j]])[0] == v * w[j];
    assert MulVec(b, [w[j]]) == [v * w[j]];
    assert u[i..i + 1] == [u[i]] && w[j..j + 1] == [w[j]];
    Dot1(u[i], v * w[j]);
    assert u[i] * (v * w[j]) == v * u[i] * w[j];
  }

  lemma Dot1(a: real, b: real)
    ensures Dot([a], [b]) == a * b
  {
    assert DotN([a], [b], 1) == DotN([a], [b], 0) + a * b;
  }

  lemma Dot2(a: Vec, b: Vec)
    requires |a| == |b| == 2
    ensures Dot(a, b) == a[0] * b[0] + a[1] * b[1]
  {
    assert DotN(a, b, 2) == DotN(a, b, 1) + a[1] * b[1];
    assert DotN(a, b, 1) == DotN(a, b, 0) + a[0] * b[0];
  }

  lemma Dot3(a: Vec, b: Vec)
    requires |a| == |b| == 3
    ensures Dot(a, b) == a[0] * b[0] + a[1] * b[1] + a[2] * b[2]
  {
    assert DotN(a, b, 3) == DotN(a, b, 2) + a[2] * b[2];
    assert DotN(a, b, 2) == DotN(a, b, 1) + a[1] * b[1];
    assert DotN(a, b, 1) == DotN(a, b, 0) + a[0] * b[0];
  }

  /** j * [1 -1; -1 1] */
  function Difference(j: real): Matrix {
    Grid(2, 2, [[j, -j], [-j, j]])
  }

  lemma DifferenceQuad(j: real, u: Vec)
    requires |u| == 2
    ensures Quad(Difference(j), u) == Weighted(j, u[1] - u[0])
  {
    var w := MulVec(Difference(j), u);
    Dot2([j, -j], u);
    Dot2([-j, j], u);
    Dot2(u, w);
    assert w[0] == j * u[0] + -j * u[1] && w[1] == -j * u[0] + j * u[1];
  }

  /** a * [1 -2 1; -2 4 -2; 1 -2 1] */
  function SecondDifference(a: real): Matrix {
    Grid(3, 3, [[a, -2.0 * a, a], [-2.0 * a, 4.0 * a, -2.0 * a], [a, -2.0 * a, a]])
  }

  lemma SecondDifferenceQuad(a: real, u: Vec)
    requires |u| == 3
    ensures Quad(SecondDifference(a), u) ==
            Weighted(a, u[0] - 2.0 * u[1] + u[2])
  {
    var w, d := MulVec(SecondDifference(a), u), u[0] - 2.0 * u[1] + u[2];
    Dot3([a, -2.0 * a, a], u);
    Dot3([-2.0 * a, 4.0 * a, -2.0 * a], u);
    Dot3(u, w);
    assert w[0] == a * d && w[2] == a * d && w[1] == -2.0 * (a * d);
    assert u[0] * (a * d) + u[1] * (-2.0 * (a * d)) + u[2] * (a * d) == a * d * d;
  }

  // ----- explicit costs -----

  function LatWeight(p: Problem, i: nat): real
    requires i < p.N()
  {
    if i == p.N() - 1 then p.terminalLatError else p.stages[i].latError
  }

  function HeadingWeight(p: Problem, i: nat): real
    requires i < p.N()
  {
    var s := p.stages[i];
    (if i == p.N() - 1 then p.terminalHeadingError else s.headingError) + s.vx * s.vx * s.headingErrorSqVel
  }

  function InputWeight(p: Problem, i: nat): real
    requires i < p.N()
  {
    var s := p.stages[i];
    s.steerInput + s.vx * s.vx * s.steerInputSqVel
  }

  function SpeedWeighted(v: real, w: real): real {
    v * v * w
  }

  function OverSquared(w: real, d: real): (r: real)
    requires d > 0.0
  {
    MultSign(d, d);
    w / (d * d)
  }

  function JerkWeight(p: Problem, i: nat): real
    requires p.Shaped() && i < p.N()
  {
    var s := p.stages[i];
    OverSquared(SpeedWeighted(s.vx, s.latJerk), p.dt)
  }

  function RateWeight(p: Problem): real
    requires p.Shaped()
  {
    OverSquared(p.steerRate, p.dt)
  }

  function AccWeight(p: Problem): real
    requires p.Shaped()
  {
    p.steerAcc / (p.dt * p.dt * p.dt * p.dt)
  }

  /** The feed-forward input of step i, zeroed below the threshold. */
  function RefInput(p: Problem, i: nat): (u: Vec)
    requires p.Shaped() && i < p.N()
    ensures |u| == p.dimU
  {
    var u := p.stages[i].uref;
    if -p.zeroFfSteer < u[0] < p.zeroFfSteer then u[0 := 0.0] else u
  }

  /** w * x^2 */
  function Weighted(w: real, x: real): (r: real)
    ensures w >= 0.0 ==> r >= 0.0
  {
    assert x * x >= 0.0;
    w * (x * x)
  }

  /** Weighted squares of the tracking errors along the simulated trajectory. */
  function TrackingCost(p: Problem, x0: Vec, U: Vec, k: nat): real
    requires p.Shaped() && |x0| == p.dimX && |U| == p.N() * p.dimU && k <= p.N()
  {
    if k == 0 then 0.0 else
      var y := MulVec(p.stages[k - 1].Cd, StateAt(p, x0, U, k));
      TrackingCost(p, x0, U, k - 1) + Weighted(LatWeight(p, k - 1), y[0]) + Weighted(HeadingWeight(p, k - 1), y[1])
  }

  function InputCost(p: Problem, u: Vec, k: nat): real
    requires |u| == p.N() && k <= p.N()
  {
    if k == 0 then 0.0 else InputCost(p, u, k - 1) + Weighted(InputWeight(p, k - 1), u[k - 1])
  }

  /** Differences u[i + 1] - u[i] for i < k, weighted for lateral jerk. */
  function JerkCost(p: Problem, u: Vec, k: nat): real
    requires p.Shaped() && |u| == p.N() && k <= p.N() && (k > 0 ==> k < p.N())
  {
    if k == 0 then 0.0 else JerkCost(p, u, k - 1) + Weighted(JerkWeight(p, k - 1), u[k] - u[k - 1])
  }

  function RateCost(p: Problem, u: Vec, k: nat): real
    requires p.Shaped() && |u| == p.N() && (k > 0 ==> k < p.N())
  {
    if k == 0 then 0.0 else RateCost(p, u, k - 1) + Weighted(RateWeight(p), u[k] - u[k - 1])
  }

  /** Second differences around 1 <= i < k. */
  function AccCost(p: Problem, u: Vec, k: nat): real
    requires p.Shaped() && |u| == p.N() && 1 <= k && (k > 1 ==> k < p.N())
  {
    if k == 1 then 0.0 else AccCost(p, u, k - 1) + Weighted(AccWeight(p), u[k - 2] - 2.0 * u[k - 1] + u[k])
  }

  /** 1 / dt^2, 1 / (dt * ctrlPeriod), 1 / ctrlPeriod^2 and 1 / ctrlPeriod. */
  function PerDt2(p: Problem): real
    requires p.Shaped()
  {
    1.0 / (p.dt * p.dt)
  }

  function PerDtPeriod(p: Problem): real
    requires p.Shaped()
  {
    1.0 / (p.dt * p.ctrlPeriod)
  }

  function PerPeriod2(p: Problem): real
    requires p.Shaped()
  {
    1.0 / (p.ctrlPeriod * p.ctrlPeriod)
  }

  function PerPeriod(p: Problem): real
    requires p.Shaped()
  {
    1.0 / p.ctrlPeriod
  }

  /** The derivative at step 0, whose past command counts as zero. */
  function RateSquare(w: real, c: real, a: real): real {
    Weighted(w, a * c)
  }

  /** Second derivatives at steps 1 and 0, whose past commands count as zero. */
  function AccSquares(w: real, g: real, h: real, k: real, a: real, b: real): real {
    Weighted(w, (b - a) * g - a * h) + Weighted(w, a * k)
  }

  /** The first step mixes the prediction step and the control period; past commands count as zero. */
  function FirstStepCost(p: Problem, u: Vec): real
    requires p.Shaped() && |u| >= 2
  {
    RateSquare(p.steerRate, PerPeriod(p), u[0]) +
    AccSquares(p.steerAcc, PerDt2(p), PerDtPeriod(p), PerPeriod2(p), u[0], u[1])
  }

  function SteerCost(p: Problem, u: Vec): real
    requires p.Shaped() && |u| == p.N()
  {
    if p.N() < 2 then 0.0
    else RateCost(p, u, p.N() - 1) + AccCost(p, u, p.N() - 1) + FirstStepCost(p, u)
  }

  // ----- what the weights mean -----

  /** The last step has the terminal weights, every other its own; speed adds to heading and input. */
  lemma WeightsOfStep(p: Problem, i: nat)
    requires i < p.N()
    ensures var s, last := p.stages[i], i == p.N() - 1;
            LatWeight(p, i) == (if last then p.terminalLatError else s.latError) &&
            HeadingWeight(p, i) - Square(s.vx) * s.headingErrorSqVel ==
              (if last then p.terminalHeadingError else s.headingError) &&
            InputWeight(p, i) - Square(s.vx) * s.steerInputSqVel == s.steerInput
  {
  }

  /** Differences of inputs are weighted as derivatives: the steering rate d / dt, the lateral jerk
      vx d / dt, and second differences as the steering acceleration d / dt^2. */
  lemma WeightsAreDerivatives(p: Problem, i: nat, d: real)
    requires p.Shaped() && i < p.N()
    ensures p.dt * p.dt > 0.0
    ensures Weighted(RateWeight(p), d) == Weighted(p.steerRate, d / p.dt)
    ensures Weighted(JerkWeight(p, i), d) == Weighted(p.stages[i].latJerk, p.stages[i].vx * (d / p.dt))
    ensures Weighted(AccWeight(p), d) == Weighted(p.steerAcc, d / (p.dt * p.dt))
  {
    hide Weighted, RateWeight, JerkWeight, AccWeight;
    MultSign(p.dt, p.dt);
    RateIs(p, d);
    JerkIs(p, i, d);
    AccelerationIs(p, d);
  }

  lemma RateIs(p: Problem, d: real)
    requires p.Shaped()
    ensures Weighted(RateWeight(p), d) == Weighted(p.steerRate, d / p.dt)
  {
    MultSign(p.dt, p.dt);
    Derivative(p.steerRate, p.dt, d, 1.0, OverSquared(p.steerRate, p.dt));
  }

  lemma JerkIs(p: Problem, i: nat, d: real)
    requires p.Shaped() && i < p.N()
    ensures Weighted(JerkWeight(p, i), d) == Weighted(p.stages[i].latJerk, p.stages[i].vx * (d / p.dt))
  {
    var s := p.stages[i];
    MultSign(p.dt, p.dt);
    Derivative(s.latJerk, p.dt, d, s.vx, OverSquared(SpeedWeighted(s.vx, s.latJerk), p.dt));
  }

  lemma AccelerationIs(p: Problem, d: real)
    requires p.Shaped()
    ensures p.dt * p.dt > 0.0 && Weighted(AccWeight(p), d) == Weighted(p.steerAcc, d / (p.dt * p.dt))
  {
    var h := p.dt * p.dt;
    MultSign(p.dt, p.dt);
    MultSign(h, h);
    assert p.dt * p.dt * p.dt * p.dt == h * h;
    Derivative(p.steerAcc, h, d, 1.0, p.steerAcc / (h * h));
  }

  lemma Derivative(w: real, h: real, d: real, v: real, weight: real)
    requires h > 0.0 && h * h > 0.0 && weight == v * v * w / (h * h)
    ensures weight * (d * d) == w * ((v * (d / h)) * (v * (d / h)))
  {
    var q := d / h;
    assert q * h == d;
    assert weight * (h * h) == v * v * w;
    assert weight * ((q * h) * (q * h)) == (weight * (h * h)) * (q * q);
    assert (v * v * w) * (q * q) == w * ((v * q) * (v * q));
  }

  // ----- sums of quadratic forms -----

  lemma AddBlockSymmetric(m: Matrix, i: nat, b: Matrix)
    requires Symmetric(m) && Symmetric(b) && i + b.rows <= m.rows
    ensures Symmetric(AddBlock(m, i, i, b))
  {
    hide SetBlock;
    var s := Add(Block(m, i, i, b.rows, b.rows), b);
    forall r, c | 0 <= r < m.rows && 0 <= c < m.rows
      ensures AddBlock(m, i, i, b).data[r][c] == AddBlock(m, i, i, b).data[c][r]
    {
      SetBlockEntry(m, i, i, s, r, c);
      SetBlockEntry(m, i, i, s, c, r);
    }
  }

  lemma AddBlockQuad(m: Matrix, i: nat, b: Matrix, u: Vec)
    requires m.rows == m.cols == |u| && b.rows == b.cols && i + b.rows <= |u|
    ensures Quad(AddBlock(m, i, i, b), u) == Quad(m, u) + Quad(b, u[i..i + b.rows])
  {
    AddBlockBil(m, i, i, b, u, u);
  }

  // ----- lateral jerk -----

  ghost predicate JerkDone(p: Problem, q: Matrix, k: nat)
    requires p.Shaped() && k <= p.N() && (k > 0 ==> k < p.N())
  {
    q.rows == q.cols == p.N() && Symmetric(q) &&
    forall u: Vec :: |u| == p.N() ==> Quad(q, u) == JerkCost(p, u, k)
  }

  lemma JerkStep(p: Problem, q: Matrix, i: nat)
    requires p.Shaped() && i + 1 < p.N() && JerkDone(p, q, i)
    ensures JerkDone(p, AddBlock(q, i, i, Difference(JerkWeight(p, i))), i + 1)
  {
    hide AddBlock, Bil;
    var d := Difference(JerkWeight(p, i));
    AddBlockSymmetric(q, i, d);
    forall u: Vec | |u| == p.N() ensures Quad(AddBlock(q, i, i, d), u) == JerkCost(p, u, i + 1) {
      AddBlockQuad(q, i, d, u);
      DifferenceQuad(JerkWeight(p, i), u[i..i + 2]);
    }
  }

  lemma ZeroQuad(n: nat)
    ensures Symmetric(Zero(n, n))
    ensures forall u: Vec :: |u| == n ==> Quad(Zero(n, n), u) == 0.0
  {
    forall u: Vec | |u| == n ensures Quad(Zero(n, n), u) == 0.0 {
      ZeroMulVec(n, u);
      DotZero(n, u);
    }
  }

  method LateralJerk(p: Problem) returns (R2ex: Matrix)
    requires p.Shaped()
    ensures JerkDone(p, R2ex, if p.N() < 2 then 0 else p.N() - 1)
  {
    hide AddBlock, Bil, Zero;
    ZeroQuad(p.N());
    R2ex := Zero(p.N(), p.N());
    var i := 0;
    while i < p.N() - 1
      invariant 0 <= i && (i > 0 ==> i < p.N()) && JerkDone(p, R2ex, i)
    {
      JerkStep(p, R2ex, i);
      R2ex := AddBlock(R2ex, i, i, Difference(JerkWeight(p, i)));
      i := i + 1;
    }
  }

  // ----- steering rate and acceleration -----

  /** q has gained k rate terms, acceleration terms below l, and e * u[0]^2 over q0. */
  ghost predicate Grown(p: Problem, q0: Matrix, q: Matrix, k: nat, l: nat, e: real)
    requires p.Shaped() && p.N() >= 1 && 1 <= l && k < p.N() && l <= p.N() && (l > 1 ==> l < p.N())
    requires q0.rows == q0.cols == p.N()
  {
    q.rows == q.cols == p.N() && Symmetric(q) &&
    forall u: Vec :: |u| == p.N() ==>
      Quad(q, u) == Quad(q0, u) + RateCost(p, u, k) + AccCost(p, u, l) + Weighted(e, u[0])
  }

  lemma RateStep(p: Problem, q0: Matrix, q: Matrix, i: nat)
    requires p.Shaped() && i + 1 < p.N() && q0.rows == q0.cols == p.N() && Grown(p, q0, q, i, 1, 0.0)
    ensures Grown(p, q0, AddBlock(q, i, i, Difference(RateWeight(p))), i + 1, 1, 0.0)
  {
    hide AddBlock, Bil;
    var d := Difference(RateWeight(p));
    AddBlockSymmetric(q, i, d);
    forall u: Vec | |u| == p.N()
      ensures Quad(AddBlock(q, i, i, d), u) ==
              Quad(q0, u) + RateCost(p, u, i + 1) + AccCost(p, u, 1) + Weighted(0.0, u[0])
    {
      AddBlockQuad(q, i, d, u);
      DifferenceQuad(RateWeight(p), u[i..i + 2]);
    }
  }

  lemma AccStep(p: Problem, q0: Matrix, q: Matrix, i: nat, e: real)
    requires p.Shaped() && 1 <= i && i + 1 < p.N() && q0.rows == q0.cols == p.N()
    requires Grown(p, q0, q, p.N() - 1, i, e)
    ensures Grown(p, q0, AddBlock(q, i - 1, i - 1, SecondDifference(AccWeight(p))), p.N() - 1, i + 1, e)
  {
    hide AddBlock, Bil, RateCost, AccWeight;
    var d := SecondDifference(AccWeight(p));
    AddBlockSymmetric(q, i - 1, d);
    forall u: Vec | |u| == p.N()
      ensures Quad(AddBlock(q, i - 1, i - 1, d), u) ==
              Quad(q0, u) + RateCost(p, u, p.N() - 1) + AccCost(p, u, i + 1) + Weighted(e, u[0])
    {
      AddBlockQuad(q, i - 1, d, u);
      SecondDifferenceQuad(AccWeight(p), u[i - 1..i + 2]);
    }
  }

  lemma AddAtEntry(m: Matrix, i: nat, j: nat, v: real, r: nat, c: nat)
    requires i < m.rows && j < m.cols && r < m.rows && c < m.cols
    ensures AddAt(m, i, j, v).data[r][c] == m.data[r][c] + if r == i && c == j then v else 0.0
  {
    SetBlockEntry(m, i, j, Add(Block(m, i, j, 1, 1), Grid(1, 1, [[v]])), r, c);
  }

  lemma FirstEntry(p: Problem, q0: Matrix, q: Matrix, k: nat, l: nat, e: real, v: real)
    requires p.Shaped() && p.N() >= 1 && 1 <= l && k < p.N() && l <= p.N() && (l > 1 ==> l < p.N())
    requires q0.rows == q0.cols == p.N() && Grown(p, q0, q, k, l, e)
    ensures Grown(p, q0, AddAt(q, 0, 0, v), k, l, e + v)
  {
    hide AddAt, Bil, RateCost, AccCost;
    var r := AddAt(q, 0, 0, v);
    forall i, j | 0 <= i < p.N() && 0 <= j < p.N() ensures r.data[i][j] == r.data[j][i] {
      AddAtEntry(q, 0, 0, v, i, j);
      AddAtEntry(q, 0, 0, v, j, i);
    }
    forall u: Vec | |u| == p.N()
      ensures Quad(r, u) == Quad(q0, u) + RateCost(p, u, k) + AccCost(p, u, l) + Weighted(e + v, u[0])
    {
      AddAtBil(q, 0, 0, v, u, u);
    }
  }

  /** The four entries of the i = 1 acceleration block, and the i = 0 entry. */
  function FirstBlock(q: Matrix, a: real, b: real, c: real, d: real): (r: Matrix)
    requires q.rows == q.cols >= 2
    ensures r.rows == r.cols == q.rows
  {
    AddAt(AddAt(AddAt(AddAt(AddAt(q, 0, 0, a), 1, 0, b), 0, 1, b), 1, 1, c), 0, 0, d)
  }

  function FirstForm(a: real, b: real, c: real, d: real, x: real, y: real): real {
    a * x * x + b * y * x + b * x * y + c * y * y + d * x * x
  }

  lemma FirstBlockQuad(q: Matrix, a: real, b: real, c: real, d: real, u: Vec)
    requires q.rows == q.cols == |u| >= 2
    ensures Quad(FirstBlock(q, a, b, c, d), u) ==
            Quad(q, u) + FirstForm(a, b, c, d, u[0], u[1])
  {
    hide AddAt, Bil;
    var q1 := AddAt(q, 0, 0, a);
    var q2 := AddAt(q1, 1, 0, b);
    var q3 := AddAt(q2, 0, 1, b);
    var q4 := AddAt(q3, 1, 1, c);
    AddAtBil(q, 0, 0, a, u, u);
    AddAtBil(q1, 1, 0, b, u, u);
    AddAtBil(q2, 0, 1, b, u, u);
    AddAtBil(q3, 1, 1, c, u, u);
    AddAtBil(q4, 0, 0, d, u, u);
  }

  lemma FirstBlockSymmetric(q: Matrix, a: real, b: real, c: real, d: real)
    requires q.rows >= 2 && Symmetric(q)
    ensures Symmetric(FirstBlock(q, a, b, c, d))
  {
    hide FirstBlock, AddAt;
    forall i, j | 0 <= i < q.rows && 0 <= j < q.rows
      ensures FirstBlock(q, a, b, c, d).data[i][j] == FirstBlock(q, a, b, c, d).data[j][i]
    {
      FirstBlockEntry(q, a, b, c, d, i, j);
      FirstBlockEntry(q, a, b, c, d, j, i);
    }
  }

  lemma FirstBlockEntry(q: Matrix, a: real, b: real, c: real, d: real, i: nat, j: nat)
    requires q.rows == q.cols >= 2 && i < q.rows && j < q.rows
    ensures FirstBlock(q, a, b, c, d).data[i][j] == q.data[i][j] +
            if i == 0 && j == 0 then a + d else if i == 1 && j == 1 then c else if i + j == 1 then b else 0.0
  {
    hide AddAt;
    var q1 := AddAt(q, 0, 0, a);
    var q2 := AddAt(q1, 1, 0, b);
    var q3 := AddAt(q2, 0, 1, b);
    var q4 := AddAt(q3, 1, 1, c);
    AddAtEntry(q, 0, 0, a, i, j);
    AddAtEntry(q1, 1, 0, b, i, j);
    AddAtEntry(q2, 0, 1, b, i, j);
    AddAtEntry(q3, 1, 1, c, i, j);
    AddAtEntry(q4, 0, 0, d, i, j);
  }

  /** Coefficients of the first steps: squared, mixed, and of the control period alone. */
  function MixedWeight(p: Problem): real
    requires p.Shaped()
  {
    p.steerAcc / (p.dt * p.dt * p.dt * p.ctrlPeriod)
  }

  function MixedSquareWeight(p: Problem): real
    requires p.Shaped()
  {
    p.steerAcc / (p.dt * p.dt * (p.ctrlPeriod * p.ctrlPeriod))
  }

  function ControlWeight(p: Problem): real
    requires p.Shaped()
  {
    p.steerAcc / (p.ctrlPeriod * p.ctrlPeriod * p.ctrlPeriod * p.ctrlPeriod)
  }

  function FirstRateWeight(p: Problem): real
    requires p.Shaped()
  {
    p.steerRate / (p.ctrlPeriod * p.ctrlPeriod)
  }

  function Triple(w: real, x: real, y: real): real { w * x * y }

  /** The coefficients are those of two squares. */
  lemma FirstStepAlgebra(p: Problem, a: real, b: real)
    requires p.Shaped()
    ensures
      var r0, cp1, cp2, cp4 := AccWeight(p), MixedWeight(p), MixedSquareWeight(p), ControlWeight(p);
      FirstForm(r0 + cp2 + cp1 * 2.0, -r0 - cp1, r0, cp4, a, b) ==
      AccSquares(p.steerAcc, PerDt2(p), PerDtPeriod(p), PerPeriod2(p), a, b)
  {
    hide *;
    AccIs(p);
    MixedIs(p);
    MixedSquareIs(p);
    ControlIs(p);
    SquareForm(p.steerAcc, PerDt2(p), PerDtPeriod(p), PerPeriod2(p), a, b,
               AccWeight(p), MixedWeight(p), MixedSquareWeight(p), ControlWeight(p));
  }

  lemma DivIs(x: real, y: real, q: real)
    requires y != 0.0 && q * y == x
    ensures x / y == q
  {
  }

  lemma AccIs(p: Problem)
    requires p.Shaped()
    ensures AccWeight(p) == Triple(p.steerAcc, PerDt2(p), PerDt2(p))
  {
    MultSign(p.dt, p.dt);
    Product(p.steerAcc, p.dt * p.dt, p.dt * p.dt);
    assert p.dt * p.dt * p.dt * p.dt == (p.dt * p.dt) * (p.dt * p.dt);
  }

  lemma MixedIs(p: Problem)
    requires p.Shaped()
    ensures MixedWeight(p) == Triple(p.steerAcc, PerDt2(p), PerDtPeriod(p))
  {
    MultSign(p.dt, p.dt);
    MultSign(p.dt, p.ctrlPeriod);
    Product(p.steerAcc, p.dt * p.dt, p.dt * p.ctrlPeriod);
    assert p.dt * p.dt * p.dt * p.ctrlPeriod == (p.dt * p.dt) * (p.dt * p.ctrlPeriod);
  }

  lemma MixedSquareIs(p: Problem)
    requires p.Shaped()
    ensures MixedSquareWeight(p) == Triple(p.steerAcc, PerDtPeriod(p), PerDtPeriod(p))
  {
    MultSign(p.dt, p.ctrlPeriod);
    Product(p.steerAcc, p.dt * p.ctrlPeriod, p.dt * p.ctrlPeriod);
    assert p.dt * p.dt * (p.ctrlPeriod * p.ctrlPeriod) == (p.dt * p.ctrlPeriod) * (p.dt * p.ctrlPeriod);
  }

  lemma ControlIs(p: Problem)
    requires p.Shaped()
    ensures ControlWeight(p) == Triple(p.steerAcc, PerPeriod2(p), PerPeriod2(p))
  {
    MultSign(p.ctrlPeriod, p.ctrlPeriod);
    Product(p.steerAcc, p.ctrlPeriod * p.ctrlPeriod, p.ctrlPeriod * p.ctrlPeriod);
    assert p.ctrlPeriod * p.ctrlPeriod * p.ctrlPeriod * p.ctrlPeriod ==
           (p.ctrlPeriod * p.ctrlPeriod) * (p.ctrlPeriod * p.ctrlPeriod);
  }

  lemma Product(w: real, x: real, y: real)
    requires x > 0.0 && y > 0.0
    ensures x * y > 0.0 && w / (x * y) == w * (1.0 / x) * (1.0 / y)
  {
    var g, h := 1.0 / x, 1.0 / y;
    assert g * x == 1.0 && h * y == 1.0;
    assert (w * g * h) * (x * y) == w * (g * x) * (h * y);
    DivIs(w, x * y, w * g * h);
  }

  lemma SquareAlgebra(w: real, g: real, h: real, k: real, a: real, b: real)
    ensures FirstForm(w * g * g + w * h * h + w * g * h * 2.0, -(w * g * g) - w * g * h, w * g * g, w * k * k, a, b) ==
            AccSquares(w, g, h, k, a, b)
  {
    var x, y := (b - a) * g, a * h;
    assert (x - y) * (x - y) == x * x - 2.0 * (x * y) + y * y;
    assert w * (x * x) == w * g * g * b * b - 2.0 * (w * g * g * a * b) + w * g * g * a * a;
    assert w * (x * y) == w * g * h * a * b - w * g * h * a * a;
    assert w * (y * y) == w * h * h * a * a;
    assert w * ((a * k) * (a * k)) == w * k * k * a * a;
  }

  lemma SquareForm(w: real, g: real, h: real, k: real, a: real, b: real,
                   r0: real, cp1: real, cp2: real, cp4: real)
    requires r0 == Triple(w, g, g) && cp1 == Triple(w, g, h) && cp2 == Triple(w, h, h) && cp4 == Triple(w, k, k)
    ensures FirstForm(r0 + cp2 + cp1 * 2.0, -r0 - cp1, r0, cp4, a, b) == AccSquares(w, g, h, k, a, b)
  {
    SquareAlgebra(w, g, h, k, a, b);
  }

  /** q is q0 with the steering rate and acceleration weights. */
  ghost predicate SteerWeighted(p: Problem, q0: Matrix, q: Matrix)
    requires p.Shaped() && q0.rows == q0.cols == p.N()
  {
    q.rows == q.cols == p.N() && Symmetric(q) &&
    forall u: Vec :: |u| == p.N() ==> Quad(q, u) == Quad(q0, u) + SteerCost(p, u)
  }

  lemma SteerComplete(p: Problem, q0: Matrix, q: Matrix)
    requires p.Shaped() && p.N() >= 2 && q0.rows == q0.cols == p.N()
    requires Grown(p, q0, q, p.N() - 1, p.N() - 1, FirstRateWeight(p))
    ensures SteerWeighted(p, q0, FirstSteps(p, q))
  {
    hide FirstBlock, RateCost, AccCost, Bil, PerDt2, PerDtPeriod, PerPeriod2, PerPeriod, FirstForm;
    hide AccSquares, RateSquare, Weighted, AccWeight, MixedWeight, MixedSquareWeight, ControlWeight;
    hide FirstRateWeight;
    var r0, cp1, cp2, cp4 := AccWeight(p), MixedWeight(p), MixedSquareWeight(p), ControlWeight(p);
    FirstBlockSymmetric(q, r0 + cp2 + cp1 * 2.0, -r0 - cp1, r0, cp4);
    forall u: Vec | |u| == p.N() ensures Quad(FirstSteps(p, q), u) == Quad(q0, u) + SteerCost(p, u) {
      FirstBlockQuad(q, r0 + cp2 + cp1 * 2.0, -r0 - cp1, r0, cp4, u);
      FirstStepAlgebra(p, u[0], u[1]);
      FirstRateIs(p, u[0]);
    }
  }

  function FirstSteps(p: Problem, q: Matrix): (r: Matrix)
    requires p.Shaped() && q.rows == q.cols >= 2
    ensures r.rows == r.cols == q.rows
  {
    var r0, cp1, cp2, cp4 := AccWeight(p), MixedWeight(p), MixedSquareWeight(p), ControlWeight(p);
    FirstBlock(q, r0 + cp2 + cp1 * 2.0, -r0 - cp1, r0, cp4)
  }

  lemma FirstRateIs(p: Problem, a: real)
    requires p.Shaped()
    ensures RateSquare(p.steerRate, PerPeriod(p), a) == Weighted(FirstRateWeight(p), a)
  {
    Product(p.steerRate, p.ctrlPeriod, p.ctrlPeriod);
    var w, g := p.steerRate, PerPeriod(p);
    assert FirstRateWeight(p) == w * g * g;
    assert w * ((a * g) * (a * g)) == w * g * g * (a * a);
  }

  method AddSteerWeightR(p: Problem, R0: Matrix) returns (R: Matrix)
    requires p.Shaped() && R0.rows == R0.cols == p.N() && Symmetric(R0)
    ensures SteerWeighted(p, R0, R)
  {
    hide AddBlock, AddAt, Bil, FirstSteps, AccWeight, RateWeight, FirstRateWeight;
    R := R0;
    if p.N() == 0 { return; }
    // steering rate
    var i := 0;
    while i < p.N() - 1
      invariant 0 <= i < p.N() && Grown(p, R0, R, i, 1, 0.0)
    {
      RateStep(p, R0, R, i);
      R := AddBlock(R, i, i, Difference(RateWeight(p)));
      i := i + 1;
    }
    if p.N() > 1 {
      FirstEntry(p, R0, R, p.N() - 1, 1, 0.0, FirstRateWeight(p));
      R := AddAt(R, 0, 0, FirstRateWeight(p));
      // steering acceleration
      i := 1;
      while i < p.N() - 1
        invariant 1 <= i < p.N()
        invariant Grown(p, R0, R, p.N() - 1, i, FirstRateWeight(p))
      {
        AccStep(p, R0, R, i, FirstRateWeight(p));
        R := AddBlock(R, i - 1, i - 1, SecondDifference(AccWeight(p)));
        i := i + 1;
      }
      SteerComplete(p, R0, R);
      R := FirstSteps(p, R);
    }
  }
}
