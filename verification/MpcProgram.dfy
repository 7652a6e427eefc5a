/** The quadratic program of the lateral MPC, and what it minimises.

    `TotalCost` is written with the simulated trajectory and explicit squares. The objective
    1/2 * U' * H * U + f * U differs from half of it by a constant. */
module MpcProgram {
  import opened Scalars
  import opened Matrices
  import opened MpcPrediction
  import opened MpcCost

  /** One steering input per step, as in every vehicle model. */
  ghost predicate Scalar(p: Problem) {
    p.Shaped() && p.dimU == 1
  }

  // ----- stage weights -----

  function StageQ(p: Problem, i: nat): (q: Matrix)
    requires p.Shaped() && i < p.N()
    ensures q.rows == q.cols == p.dimY
  {
    AddAt(AddAt(Zero(p.dimY, p.dimY), 0, 0, LatWeight(p, i)), 1, 1, HeadingWeight(p, i))
  }

  function StageR(p: Problem, i: nat): (r: Matrix)
    requires p.Shaped() && i < p.N()
    ensures r.rows == r.cols == p.dimU
  {
    AddAt(Zero(p.dimU, p.dimU), 0, 0, InputWeight(p, i))
  }

  lemma StageQQuad(p: Problem, i: nat, y: Vec)
    requires p.Shaped() && i < p.N() && |y| == p.dimY
    ensures Quad(StageQ(p, i), y) == Weighted(LatWeight(p, i), y[0]) + Weighted(HeadingWeight(p, i), y[1])
  {
    hide AddAt, Bil, Zero, LatWeight, HeadingWeight;
    var z := Zero(p.dimY, p.dimY);
    var q := AddAt(z, 0, 0, LatWeight(p, i));
    ZeroQuad(p.dimY);
    assert Quad(z, y) == 0.0;
    AddAtBil(z, 0, 0, LatWeight(p, i), y, y);
    AddAtBil(q, 1, 1, HeadingWeight(p, i), y, y);
  }

  lemma StageRQuad(p: Problem, i: nat, u: Vec)
    requires p.Shaped() && i < p.N() && |u| == p.dimU
    ensures Quad(StageR(p, i), u) == Weighted(InputWeight(p, i), u[0])
  {
    hide AddAt, Bil, Zero, InputWeight;
    ZeroQuad(p.dimU);
    assert Quad(Zero(p.dimU, p.dimU), u) == 0.0;
    AddAtBil(Zero(p.dimU, p.dimU), 0, 0, InputWeight(p, i), u, u);
  }

  lemma StagesSymmetric(p: Problem, i: nat)
    requires p.Shaped() && i < p.N()
    ensures Symmetric(StageQ(p, i)) && Symmetric(StageR(p, i))
  {
    hide AddAt;
    var y, u := Zero(p.dimY, p.dimY), Zero(p.dimU, p.dimU);
    var q := AddAt(y, 0, 0, LatWeight(p, i));
    forall r, c | 0 <= r < p.dimY && 0 <= c < p.dimY ensures StageQ(p, i).data[r][c] == StageQ(p, i).data[c][r] {
      AddAtEntry(y, 0, 0, LatWeight(p, i), r, c);
      AddAtEntry(y, 0, 0, LatWeight(p, i), c, r);
      AddAtEntry(q, 1, 1, HeadingWeight(p, i), r, c);
      AddAtEntry(q, 1, 1, HeadingWeight(p, i), c, r);
    }
    forall r, c | 0 <= r < p.dimU && 0 <= c < p.dimU ensures StageR(p, i).data[r][c] == StageR(p, i).data[c][r] {
      AddAtEntry(u, 0, 0, InputWeight(p, i), r, c);
      AddAtEntry(u, 0, 0, InputWeight(p, i), c, r);
    }
  }

  // ----- block diagonal weights -----

  ghost predicate Blocks(bs: seq<Matrix>, d: nat) {
    forall i :: 0 <= i < |bs| ==> bs[i].rows == d && Symmetric(bs[i])
  }

  /** The sum of the first k stage forms. */
  ghost function BlockQuads(bs: seq<Matrix>, d: nat, v: Vec, k: nat): real
    requires Blocks(bs, d) && |v| == |bs| * d && k <= |bs|
  {
    if k == 0 then 0.0 else
      BlockFits(d, k - 1, |bs|);
      BlockQuads(bs, d, v, k - 1) + Quad(bs[k - 1], Slice(v, k - 1, d))
  }

  ghost predicate ZeroOutside(m: Matrix, c: nat) {
    forall i, j :: 0 <= i < m.rows && 0 <= j < m.cols && (c <= i || c <= j) ==> m.data[i][j] == 0.0
  }

  /** The first k diagonal blocks are set, and nothing else. */
  ghost predicate DiagonalTo(m: Matrix, bs: seq<Matrix>, d: nat, k: nat)
    requires Blocks(bs, d) && k <= |bs|
  {
    m.rows == m.cols == |bs| * d && Symmetric(m) && ZeroOutside(m, k * d) &&
    forall v: Vec :: |v| == |bs| * d ==> Quad(m, v) == BlockQuads(bs, d, v, k)
  }

  lemma SetOutside(m: Matrix, c: nat, b: Matrix)
    requires Symmetric(m) && Symmetric(b) && ZeroOutside(m, c) && c + b.rows <= m.rows
    ensures SetBlock(m, c, c, b) == AddBlock(m, c, c, b)
    ensures ZeroOutside(SetBlock(m, c, c, b), c + b.rows) && Symmetric(SetBlock(m, c, c, b))
  {
    hide SetBlock;
    var r, s := SetBlock(m, c, c, b), Add(Block(m, c, c, b.rows, b.rows), b);
    forall i, j | 0 <= i < m.rows && 0 <= j < m.rows
      ensures r.data[i][j] == AddBlock(m, c, c, b).data[i][j]
      ensures c + b.rows <= i || c + b.rows <= j ==> r.data[i][j] == 0.0
    {
      SetBlockEntry(m, c, c, b, i, j);
      SetBlockEntry(m, c, c, s, i, j);
    }
    Extensional(r, AddBlock(m, c, c, b));
    AddBlockSymmetric(m, c, b);
  }

  lemma DiagonalStep(m: Matrix, bs: seq<Matrix>, d: nat, k: nat)
    requires Blocks(bs, d) && k < |bs| && DiagonalTo(m, bs, d, k)
    ensures DiagonalTo(Place(m, k, d, k, d, bs[k]), bs, d, k + 1)
  {
    hide SetBlock, AddBlock, Bil, BlockQuads;
    BlockFits(d, k, |bs|);
    var r := Place(m, k, d, k, d, bs[k]);
    SetOutside(m, k * d, bs[k]);
    forall v: Vec | |v| == |bs| * d ensures Quad(r, v) == BlockQuads(bs, d, v, k + 1) {
      AddBlockQuad(m, k * d, bs[k], v);
      NextQuad(bs, d, v, k + 1);
    }
  }

  lemma DiagonalStart(bs: seq<Matrix>, d: nat)
    requires Blocks(bs, d)
    ensures DiagonalTo(Zero(|bs| * d, |bs| * d), bs, d, 0)
  {
    ZeroQuad(|bs| * d);
  }

  // ----- outputs and references -----

  /** The first k row blocks of Cex read the output of their step. */
  ghost predicate OutputsTo(p: Problem, Cex: Matrix, k: nat)
    requires p.Shaped() && k <= p.N()
  {
    && Cex.rows == p.YDim() && Cex.cols == p.XDim()
    && (forall i :: 0 <= i < k ==> RowBlock(Cex, i, p.dimY) == OutputRow(p, i))
    && (forall i :: k <= i < p.N() ==> RowBlock(Cex, i, p.dimY) == Zero(p.dimY, p.XDim()))
  }

  function OutputRow(p: Problem, i: nat): Matrix
    requires p.Shaped() && i < p.N()
  {
    Place(Zero(p.dimY, p.XDim()), 0, p.dimY, i, p.dimX, p.stages[i].Cd)
  }

  lemma OutputsStart(p: Problem)
    requires p.Shaped()
    ensures OutputsTo(p, Zero(p.YDim(), p.XDim()), 0)
  {
    hide RowBlock;
    var z := Zero(p.YDim(), p.XDim());
    forall i | 0 <= i < p.N() ensures RowBlock(z, i, p.dimY) == Zero(p.dimY, p.XDim()) {
      ZeroRowBlock(p.N(), p.dimY, p.XDim(), i);
    }
  }

  lemma OutputsStep(p: Problem, Cex: Matrix, i: nat)
    requires p.Shaped() && i < p.N() && OutputsTo(p, Cex, i)
    ensures OutputsTo(p, Place(Cex, i, p.dimY, i, p.dimX, p.stages[i].Cd), i + 1)
  {
    hide Place, RowBlock, Zero;
    BlockFits(p.dimX, i, p.N());
    forall k | 0 <= k < p.N()
      ensures RowBlock(Place(Cex, i, p.dimY, i, p.dimX, p.stages[i].Cd), k, p.dimY) ==
              if k == i then Place(RowBlock(Cex, i, p.dimY), 0, p.dimY, i, p.dimX, p.stages[i].Cd)
              else RowBlock(Cex, k, p.dimY)
    {
      PlaceInRow(Cex, p.N(), p.dimY, i, i, p.dimX, p.stages[i].Cd, k);
    }
  }

  /** Output block i of Cex * X is Cd_i times state block i of X. */
  lemma OutputIsLocal(p: Problem, Cex: Matrix, X: Vec, i: nat)
    requires p.Shaped() && OutputsTo(p, Cex, p.N()) && |X| == p.XDim() && i < p.N()
    ensures |Slice(X, i, p.dimX)| == p.dimX
    ensures Slice(MulVec(Cex, X), i, p.dimY) == MulVec(p.stages[i].Cd, Slice(X, i, p.dimX))
  {
    hide SetBlock, MulVec, Zero, RowBlock;
    BlockFits(p.dimY, i, p.N());
    BlockFits(p.dimX, i, p.N());
    RowBlockMulVec(Cex, i, p.dimY, X);
    PlaceIsSet(Zero(p.dimY, p.XDim()), i, p.dimX, p.stages[i].Cd);
    PaddedMulVec(p.stages[i].Cd, p.dimY, 0, i * p.dimX, X);
    var v := MulVec(p.stages[i].Cd, Slice(X, i, p.dimX));
    assert VZero(0) + (v + VZero(0)) == v;
  }

  ghost predicate ReferencesTo(p: Problem, Uref: Vec, k: nat)
    requires p.Shaped() && k <= p.N()
  {
    |Uref| == p.UDim() && forall i :: 0 <= i < k ==> Slice(Uref, i, p.dimU) == RefInput(p, i)
  }

  /** The reference input is the feed-forward input of each step, except that a first entry smaller
      than the threshold is taken for noise and dropped. */
  lemma ReferenceThreshold(p: Problem, Uref: Vec, i: nat)
    requires p.Shaped() && ReferencesTo(p, Uref, p.N()) && i < p.N()
    ensures var u, r := p.stages[i].uref, Slice(Uref, i, p.dimU);
            |r| == |u| && (forall k :: 1 <= k < |u| ==> r[k] == u[k]) &&
            r[0] == if Abs(u[0]) < p.zeroFfSteer then 0.0 else u[0]
  {
  }

  lemma ReferencesStep(p: Problem, Uref: Vec, i: nat)
    requires p.Shaped() && i < p.N() && ReferencesTo(p, Uref, i)
    ensures ReferencesTo(p, PlaceSlice(Uref, i, p.dimU, RefInput(p, i)), i + 1)
  {
    hide PlaceSlice, Slice;
    forall k | 0 <= k <= i
      ensures Slice(PlaceSlice(Uref, i, p.dimU, RefInput(p, i)), k, p.dimU) == RefInput(p, k)
    {
      PlaceSliceAt(Uref, p.N(), p.dimU, i, RefInput(p, i), k);
    }
  }

  // ----- the weight matrices -----

  datatype Costs = Costs(Cex: Matrix, Qex: Matrix, R1ex: Matrix, R2ex: Matrix, Uref: Vec)

  ghost function StageQs(p: Problem): (bs: seq<Matrix>)
    requires p.Shaped()
    ensures |bs| == p.N() && Blocks(bs, p.dimY) && forall i :: 0 <= i < p.N() ==> bs[i] == StageQ(p, i)
  {
    forall i | 0 <= i < p.N() ensures Symmetric(StageQ(p, i)) { StagesSymmetric(p, i); }
    seq(p.N(), i requires 0 <= i < p.N() => StageQ(p, i))
  }

  ghost function StageRs(p: Problem): (bs: seq<Matrix>)
    requires p.Shaped()
    ensures |bs| == p.N() && Blocks(bs, p.dimU) && forall i :: 0 <= i < p.N() ==> bs[i] == StageR(p, i)
  {
    forall i | 0 <= i < p.N() ensures Symmetric(StageR(p, i)) { StagesSymmetric(p, i); }
    seq(p.N(), i requires 0 <= i < p.N() => StageR(p, i))
  }

  /** The weights of the horizon loop, before the steering weights are added. */
  method StageWeights(p: Problem) returns (Cex: Matrix, Qex: Matrix, R1ex: Matrix, Uref: Vec)
    requires p.Shaped()
    ensures OutputsTo(p, Cex, p.N()) && ReferencesTo(p, Uref, p.N())
    ensures DiagonalTo(Qex, StageQs(p), p.dimY, p.N())
    ensures DiagonalTo(R1ex, StageRs(p), p.dimU, p.N())
  {
    hide Place, PlaceSlice, StageQ, StageR, OutputsTo, ReferencesTo, DiagonalTo, Blocks, Zero, RefInput;
    ghost var qs, rs := StageQs(p), StageRs(p);
    Cex := Zero(p.YDim(), p.XDim());
    Qex := Zero(p.YDim(), p.YDim());
    R1ex := Zero(p.UDim(), p.UDim());
    Uref := VZero(p.UDim());
    OutputsStart(p);
    DiagonalStart(qs, p.dimY);
    DiagonalStart(rs, p.dimU);
    ReferencesStart(p);
    hide StageQs, StageRs;
    var i := 0;
    while i < p.N()
      invariant 0 <= i <= p.N() && OutputsTo(p, Cex, i) && ReferencesTo(p, Uref, i)
      invariant DiagonalTo(Qex, qs, p.dimY, i) && DiagonalTo(R1ex, rs, p.dimU, i)
    {
      OutputsStep(p, Cex, i);
      DiagonalStep(Qex, qs, p.dimY, i);
      DiagonalStep(R1ex, rs, p.dimU, i);
      ReferencesStep(p, Uref, i);
      Cex := Place(Cex, i, p.dimY, i, p.dimX, p.stages[i].Cd);
      Qex := Place(Qex, i, p.dimY, i, p.dimY, StageQ(p, i));
      R1ex := Place(R1ex, i, p.dimU, i, p.dimU, StageR(p, i));
      Uref := PlaceSlice(Uref, i, p.dimU, RefInput(p, i));
      i := i + 1;
    }
  }

  lemma ReferencesStart(p: Problem)
    requires p.Shaped()
    ensures ReferencesTo(p, VZero(p.UDim()), 0)
  {
  }

  lemma DiagonalShape(m: Matrix, bs: seq<Matrix>, d: nat, k: nat)
    requires Blocks(bs, d) && k <= |bs| && DiagonalTo(m, bs, d, k)
    ensures m.rows == m.cols == |bs| * d
  {
  }

  // ----- the total cost -----

  /** Tracking along the simulated trajectory, input and steering weights on U - Uref, jerk on U. */
  function TotalCost(p: Problem, x0: Vec, U: Vec, Uref: Vec): real
    requires Scalar(p) && |x0| == p.dimX && |U| == |Uref| == p.N()
  {
    var e := VSub(U, Uref);
    TrackingCost(p, x0, U, p.N()) + InputCost(p, e, p.N()) + SteerCost(p, e) +
    JerkCost(p, U, if p.N() < 2 then 0 else p.N() - 1)
  }

  ghost predicate Weights(p: Problem, c: Costs)
    requires Scalar(p)
  {
    && OutputsTo(p, c.Cex, p.N()) && ReferencesTo(p, c.Uref, p.N())
    && DiagonalTo(c.Qex, StageQs(p), p.dimY, p.N())
    && JerkDone(p, c.R2ex, if p.N() < 2 then 0 else p.N() - 1)
    && InputAndSteer(p, c.R1ex)
  }

  ghost predicate InputAndSteer(p: Problem, R1ex: Matrix)
    requires Scalar(p)
  {
    R1ex.rows == R1ex.cols == p.N() && Symmetric(R1ex) &&
    forall u: Vec :: |u| == p.N() ==> Quad(R1ex, u) == InputCost(p, u, p.N()) + SteerCost(p, u)
  }

  lemma {:induction false} InputQuads(p: Problem, u: Vec, k: nat)
    requires Scalar(p) && |u| == p.N() && k <= p.N()
    ensures BlockQuads(StageRs(p), 1, u, k) == InputCost(p, u, k)
  {
    hide Bil, StageR, StageRs;
    if k > 0 {
      InputQuads(p, u, k - 1);
      BlockFits(1, k - 1, p.N());
      StageRQuad(p, k - 1, Slice(u, k - 1, 1));
    }
  }

  lemma InputAndSteerWeights(p: Problem, R0: Matrix, R: Matrix)
    requires Scalar(p) && DiagonalTo(R0, StageRs(p), 1, p.N())
    requires R0.rows == R0.cols == p.N() && SteerWeighted(p, R0, R)
    ensures InputAndSteer(p, R)
  {
    hide Bil, StageRs, InputCost, SteerCost, BlockQuads, Symmetric, ZeroOutside;
    forall u: Vec | |u| == p.N() ensures Quad(R, u) == InputCost(p, u, p.N()) + SteerCost(p, u) {
      InputQuads(p, u, p.N());
    }
  }

  /** All matrices of the horizon. */
  method GenerateMPCMatrix(p: Problem) returns (m: Prediction, c: Costs)
    requires Scalar(p)
    ensures StackedTo(p, m, p.N()) && Weights(p, c)
  {
    hide StackedTo, OutputsTo, ReferencesTo, DiagonalTo, JerkDone, SteerWeighted, InputAndSteer, StageQs, StageRs;
    m := PredictionMatrices(p);
    var Cex, Qex, R1, Uref := StageWeights(p);
    var R2ex := LateralJerk(p);
    DiagonalShape(R1, StageRs(p), 1, p.N());
    DiagonalSymmetric(R1, StageRs(p), 1, p.N());
    var R1ex := AddSteerWeightR(p, R1);
    InputAndSteerWeights(p, R1, R1ex);
    c := Costs(Cex, Qex, R1ex, R2ex, Uref);
  }

  lemma DiagonalSymmetric(m: Matrix, bs: seq<Matrix>, d: nat, k: nat)
    requires Blocks(bs, d) && k <= |bs| && DiagonalTo(m, bs, d, k)
    ensures Symmetric(m)
  {
  }

  lemma {:induction false} TrackingQuads(p: Problem, m: Prediction, Cex: Matrix, x0: Vec, U: Vec, k: nat)
    requires Scalar(p) && StackedTo(p, m, p.N()) && OutputsTo(p, Cex, p.N())
    requires |x0| == p.dimX && |U| == p.N() && k <= p.N()
    ensures Cex.cols == |Predicted(m, x0, U)| && Cex.rows == p.YDim()
    ensures BlockQuads(StageQs(p), p.dimY, MulVec(Cex, Predicted(m, x0, U)), k) == TrackingCost(p, x0, U, k)
  {
    hide Bil, StageQ, StageQs, Predicted, MulVec, StateAt, RowBlock, LatWeight, HeadingWeight, Weighted;
    if k > 0 {
      TrackingQuads(p, m, Cex, x0, U, k - 1);
      hide BlockQuads, Slice, TrackingCost;
      NextQuad(StageQs(p), p.dimY, MulVec(Cex, Predicted(m, x0, U)), k);
      StageOutput(p, m, Cex, x0, U, k - 1);
      NextTracking(p, x0, U, k);
    } else {
      NoQuads(StageQs(p), p.dimY, MulVec(Cex, Predicted(m, x0, U)));
    }
  }

  /** What step i adds to the tracking cost. */
  function StageCost(p: Problem, x0: Vec, U: Vec, i: nat): real
    requires p.Shaped() && |x0| == p.dimX && |U| == p.N() * p.dimU && i < p.N()
  {
    var y := MulVec(p.stages[i].Cd, StateAt(p, x0, U, i + 1));
    Weighted(LatWeight(p, i), y[0]) + Weighted(HeadingWeight(p, i), y[1])
  }

  lemma NextTracking(p: Problem, x0: Vec, U: Vec, k: nat)
    requires p.Shaped() && |x0| == p.dimX && |U| == p.N() * p.dimU && 0 < k <= p.N()
    ensures TrackingCost(p, x0, U, k) == TrackingCost(p, x0, U, k - 1) + StageCost(p, x0, U, k - 1)
  {
    hide MulVec, StateAt, LatWeight, HeadingWeight, Weighted;
  }

  lemma StageOutput(p: Problem, m: Prediction, Cex: Matrix, x0: Vec, U: Vec, i: nat)
    requires Scalar(p) && StackedTo(p, m, p.N()) && OutputsTo(p, Cex, p.N())
    requires |x0| == p.dimX && |U| == p.N() && i < p.N()
    ensures Cex.cols == |Predicted(m, x0, U)| && Cex.rows == p.YDim()
    ensures |Slice(MulVec(Cex, Predicted(m, x0, U)), i, p.dimY)| == p.dimY
    ensures Quad(StageQ(p, i), Slice(MulVec(Cex, Predicted(m, x0, U)), i, p.dimY)) == StageCost(p, x0, U, i)
  {
    hide Bil, StageQ, Predicted, MulVec, StateAt, RowBlock, LatWeight, HeadingWeight, Weighted;
    var X := Predicted(m, x0, U);
    BlockFits(p.dimY, i, p.N());
    PredictionIsSimulation(p, m, x0, U, i);
    OutputIsLocal(p, Cex, X, i);
    StageQQuad(p, i, Slice(MulVec(Cex, X), i, p.dimY));
  }

  /** The cost in matrix form: Y' Q Y + (U - Uref)' R1 (U - Uref) + U' R2 U. */
  ghost function MatrixCost(m: Prediction, c: Costs, x0: Vec, U: Vec): real
    requires Fit(m, c) && |x0| == m.Aex.cols && |U| == m.Bex.cols
  {
    Quad(c.Qex, MulVec(c.Cex, Predicted(m, x0, U))) + Quad(c.R1ex, VSub(U, c.Uref)) + Quad(c.R2ex, U)
  }

  predicate Fit(m: Prediction, c: Costs) {
    && m.Aex.rows == m.Bex.rows == |m.Wex| == c.Cex.cols && c.Cex.rows == c.Qex.rows == c.Qex.cols
    && m.Bex.cols == c.R1ex.rows == c.R1ex.cols == c.R2ex.rows == c.R2ex.cols == |c.Uref|
  }

  lemma MatrixCostIsTotalCost(p: Problem, m: Prediction, c: Costs, x0: Vec, U: Vec)
    requires Scalar(p) && StackedTo(p, m, p.N()) && Weights(p, c) && |x0| == p.dimX && |U| == p.N()
    ensures Fit(m, c)
    ensures MatrixCost(m, c, x0, U) == TotalCost(p, x0, U, c.Uref)
  {
    hide Bil, StageQs, Predicted, MulVec, BlockQuads, TrackingCost, InputCost, SteerCost, JerkCost, BStackedTo;
    TrackingQuads(p, m, c.Cex, x0, U, p.N());
    DiagonalShape(c.Qex, StageQs(p), p.dimY, p.N());
  }

  // ----- the quadratic program -----

  /** The upper triangle of m, mirrored. */
  function MirrorUpper(m: Matrix): (r: Matrix)
    requires m.rows == m.cols
    ensures r.rows == r.cols == m.rows
  {
    Grid(m.rows, m.cols, seq(m.rows, i requires 0 <= i < m.rows =>
      seq(m.cols, j requires 0 <= j < m.cols => if i <= j then m.data[i][j] else m.data[j][i])))
  }

  /** H = (Cex Bex)' Qex (Cex Bex) + R1ex + R2ex, its upper triangle mirrored, and the linear term. */
  method QuadraticProgram(m: Prediction, c: Costs, x0: Vec) returns (H: Matrix, f: Vec)
    requires Fit(m, c) && |x0| == m.Aex.cols
    requires Symmetric(c.Qex) && Symmetric(c.R1ex) && Symmetric(c.R2ex)
    ensures H.rows == H.cols == |f| == m.Bex.cols && Symmetric(H) && H == Hessian(m, c)
    ensures forall U: Vec :: |U| == m.Bex.cols ==>
      Objective(H, f, U) == (MatrixCost(m, c, x0, U) - MatrixCost(m, c, x0, VZero(m.Bex.cols))) / 2.0
  {
    hide Mul, MulVec, VecMul, Add, MirrorUpper, Symmetric, MatrixCost, Objective;
    var CB := Mul(c.Cex, m.Bex);
    var QCB := Mul(c.Qex, CB);
    var S := Add(Add(Mul(Transpose(CB), QCB), c.R1ex), c.R2ex);
    H := MirrorUpper(S);
    f := VSub(VecMul(MulVec(c.Cex, VAdd(MulVec(m.Aex, x0), m.Wex)), QCB), VecMul(c.Uref, c.R1ex));
    HessianSymmetric(m, c);
    forall U: Vec | |U| == m.Bex.cols
      ensures Objective(H, f, U) == (MatrixCost(m, c, x0, U) - MatrixCost(m, c, x0, VZero(m.Bex.cols))) / 2.0
    {
      ObjectiveIsCost(m, c, x0, f, U);
    }
  }

  function Objective(H: Matrix, f: Vec, U: Vec): real
    requires H.rows == H.cols == |f| == |U|
  {
    Quad(H, U) / 2.0 + Dot(f, U)
  }

  function Hessian(m: Prediction, c: Costs): (S: Matrix)
    requires Fit(m, c)
    ensures S.rows == S.cols == m.Bex.cols
  {
    Add(Add(Mul(Transpose(Mul(c.Cex, m.Bex)), Mul(c.Qex, Mul(c.Cex, m.Bex))), c.R1ex), c.R2ex)
  }

  lemma HessianBil(m: Prediction, c: Costs, U: Vec, V: Vec)
    requires Fit(m, c) && |U| == |V| == m.Bex.cols
    ensures var CB := Mul(c.Cex, m.Bex);
            Bil(Hessian(m, c), U, V) ==
            Bil(c.Qex, MulVec(CB, U), MulVec(CB, V)) + Bil(c.R1ex, U, V) + Bil(c.R2ex, U, V)
  {
    var CB := Mul(c.Cex, m.Bex);
    var G := Mul(Transpose(CB), Mul(c.Qex, CB));
    BilSum(Add(G, c.R1ex), c.R2ex, U, V);
    BilSum(G, c.R1ex, U, V);
    MulVecMul(Transpose(CB), Mul(c.Qex, CB), V);
    MulVecMul(c.Qex, CB, V);
    Adjoint(CB, MulVec(c.Qex, MulVec(CB, V)), U);
    DotComm(MulVec(c.Qex, MulVec(CB, V)), MulVec(CB, U));
  }

  lemma HessianSymmetric(m: Prediction, c: Costs)
    requires Fit(m, c) && Symmetric(c.Qex) && Symmetric(c.R1ex) && Symmetric(c.R2ex)
    ensures Symmetric(Hessian(m, c)) && MirrorUpper(Hessian(m, c)) == Hessian(m, c)
  {
    hide Mul, Add, MulVec, Bil, Hessian;
    var CB, S := Mul(c.Cex, m.Bex), Hessian(m, c);
    forall U: Vec, V: Vec | |U| == |V| == S.rows ensures Bil(S, U, V) == Bil(S, V, U) {
      HessianBil(m, c, U, V);
      HessianBil(m, c, V, U);
      SymmetricSwaps(c.Qex, MulVec(CB, U), MulVec(CB, V));
      SymmetricSwaps(c.R1ex, U, V);
      SymmetricSwaps(c.R2ex, U, V);
    }
    SymmetricFromSwaps(S);
    Extensional(MirrorUpper(S), S);
  }

  /** Quad(q, a + b) */
  lemma QuadOfSum(q: Matrix, a: Vec, b: Vec)
    requires Symmetric(q) && |a| == |b| == q.rows
    ensures Quad(q, VAdd(a, b)) == Quad(q, a) + 2.0 * Bil(q, a, b) + Quad(q, b)
    ensures Quad(q, VSub(a, b)) == Quad(q, a) - 2.0 * Bil(q, a, b) + Quad(q, b)
  {
    MulVecLinear(q, a, b);
    DotAdd(a, b, MulVec(q, VAdd(a, b)));
    DotAddRight(a, MulVec(q, a), MulVec(q, b));
    DotAddRight(b, MulVec(q, a), MulVec(q, b));
    DotSub(a, b, MulVec(q, VSub(a, b)));
    DotSub(MulVec(q, a), MulVec(q, b), a);
    DotSub(MulVec(q, a), MulVec(q, b), b);
    SymmetricSwaps(q, a, b);
  }

  /** The output without input. */
  function FreeOutput(m: Prediction, c: Costs, x0: Vec): (y: Vec)
    requires Fit(m, c) && |x0| == m.Aex.cols
    ensures |y| == c.Cex.rows
  {
    MulVec(c.Cex, VAdd(MulVec(m.Aex, x0), m.Wex))
  }

  lemma OutputSplits(m: Prediction, c: Costs, x0: Vec, U: Vec)
    requires Fit(m, c) && |x0| == m.Aex.cols && |U| == m.Bex.cols
    ensures MulVec(c.Cex, Predicted(m, x0, U)) == VAdd(FreeOutput(m, c, x0), MulVec(Mul(c.Cex, m.Bex), U))
  {
    hide MulVec;
    var a, b := MulVec(m.Aex, x0), MulVec(m.Bex, U);
    assert VAdd(VAdd(a, b), m.Wex) == VAdd(VAdd(a, m.Wex), b);
    MulVecLinear(c.Cex, VAdd(a, m.Wex), b);
    MulVecMul(c.Cex, m.Bex, U);
  }

  /** The cost as a quadratic function of the inputs. */
  lemma CostExpanded(m: Prediction, c: Costs, x0: Vec, U: Vec)
    requires Fit(m, c) && |x0| == m.Aex.cols && |U| == m.Bex.cols
    requires Symmetric(c.Qex) && Symmetric(c.R1ex) && Symmetric(c.R2ex)
    ensures MatrixCost(m, c, x0, U) ==
            Quad(Hessian(m, c), U) +
            2.0 * (Bil(c.Qex, FreeOutput(m, c, x0), MulVec(Mul(c.Cex, m.Bex), U)) - Bil(c.R1ex, c.Uref, U)) +
            Quad(c.Qex, FreeOutput(m, c, x0)) + Quad(c.R1ex, c.Uref)
  {
    hide Mul, MulVec, Bil, Hessian, FreeOutput, Predicted, Symmetric;
    var v := MulVec(Mul(c.Cex, m.Bex), U);
    SymmetricShape(c.Qex);
    OutputSplits(m, c, x0, U);
    QuadOfSum(c.Qex, FreeOutput(m, c, x0), v);
    QuadOfSum(c.R1ex, U, c.Uref);
    SymmetricSwaps(c.R1ex, U, c.Uref);
    HessianBil(m, c, U, U);
  }

  lemma SymmetricShape(q: Matrix)
    requires Symmetric(q)
    ensures q.rows == q.cols
  {
  }

  lemma ObjectiveIsCost(m: Prediction, c: Costs, x0: Vec, f: Vec, U: Vec)
    requires Fit(m, c) && |x0| == m.Aex.cols && |U| == m.Bex.cols
    requires Symmetric(c.Qex) && Symmetric(c.R1ex) && Symmetric(c.R2ex)
    requires f == VSub(VecMul(FreeOutput(m, c, x0), Mul(c.Qex, Mul(c.Cex, m.Bex))), VecMul(c.Uref, c.R1ex))
    ensures |f| == m.Bex.cols
    ensures Objective(Hessian(m, c), f, U) ==
            (MatrixCost(m, c, x0, U) - MatrixCost(m, c, x0, VZero(m.Bex.cols))) / 2.0
  {
    hide Mul, MulVec, VecMul, Hessian, FreeOutput, MatrixCost, Dot;
    var n, CB, y := m.Bex.cols, Mul(c.Cex, m.Bex), FreeOutput(m, c, x0);
    CostExpanded(m, c, x0, U);
    CostExpanded(m, c, x0, VZero(n));
    DotSub(VecMul(y, Mul(c.Qex, CB)), VecMul(c.Uref, c.R1ex), U);
    DotAssoc(y, Mul(c.Qex, CB), U);
    MulVecMul(c.Qex, CB, U);
    DotAssoc(c.Uref, c.R1ex, U);
    ZeroInput(CB, n);
    ZeroInput(Hessian(m, c), n);
    ZeroInput(c.Qex, c.Qex.cols);
    ZeroInput(c.R1ex, n);
    DotZero(|y|, y);
    DotZero(n, c.Uref);
    DotZero(n, VZero(n));
  }

  lemma ZeroInput(a: Matrix, n: nat)
    requires a.cols == n
    ensures MulVec(a, VZero(n)) == VZero(a.rows)
  {
    forall i | 0 <= i < a.rows ensures MulVec(a, VZero(n))[i] == 0.0 { DotZero(n, a.data[i]); }
  }

  /** What the solver minimises is the total cost: the objectives of any two input sequences
      differ by half the difference of their total costs. The program is convex. */
  method SolverInput(p: Problem, x0: Vec) returns (H: Matrix, f: Vec, Uref: Vec)
    requires Scalar(p) && |x0| == p.dimX
    ensures H.rows == H.cols == |f| == |Uref| == p.N() && ReferencesTo(p, Uref, p.N())
    ensures forall U: Vec, V: Vec :: |U| == |V| == p.N() ==>
      Objective(H, f, U) - Objective(H, f, V) == (TotalCost(p, x0, U, Uref) - TotalCost(p, x0, V, Uref)) / 2.0
    ensures NonnegativeWeights(p) && NonnegativeOutputWeights(p) ==> PSD(H)
    ensures forall i :: 0 <= i < p.N() ==>
      var u := p.stages[i].uref[0]; Uref[i] == if Abs(u) < p.zeroFfSteer then 0.0 else u
  {
    hide PSD, NonnegativeWeights, NonnegativeOutputWeights, Hessian;
    hide Objective, MatrixCost, TotalCost, StackedTo, Weights, Fit, ReferencesTo, Symmetric;
    var m, c := GenerateMPCMatrix(p);
    MatrixCostIsTotalCost(p, m, c, x0, VZero(p.N()));
    ShapesOf(p, m, c);
    H, f := QuadraticProgram(m, c, x0);
    Uref := c.Uref;
    forall i | 0 <= i < p.N()
      ensures var u := p.stages[i].uref[0]; Uref[i] == if Abs(u) < p.zeroFfSteer then 0.0 else u
    {
      ReferenceThreshold(p, Uref, i);
    }
    if NonnegativeWeights(p) && NonnegativeOutputWeights(p) { HessianPSD(p, m, c); }
    forall U: Vec, V: Vec | |U| == |V| == p.N()
      ensures Objective(H, f, U) - Objective(H, f, V) == (TotalCost(p, x0, U, Uref) - TotalCost(p, x0, V, Uref)) / 2.0
    {
      MatrixCostIsTotalCost(p, m, c, x0, U);
      MatrixCostIsTotalCost(p, m, c, x0, V);
    }
  }

  lemma ShapesOf(p: Problem, m: Prediction, c: Costs)
    requires Scalar(p) && StackedTo(p, m, p.N()) && Weights(p, c)
    ensures m.Aex.cols == p.dimX && m.Bex.cols == p.N() == |c.Uref|
    ensures Symmetric(c.Qex) && Symmetric(c.R1ex) && Symmetric(c.R2ex) && ReferencesTo(p, c.Uref, p.N())
  {
    DiagonalSymmetric(c.Qex, StageQs(p), p.dimY, p.N());
  }

  // ----- the input weights are positive semidefinite -----

  predicate NonnegativeWeights(p: Problem) {
    p.steerRate >= 0.0 && p.steerAcc >= 0.0 &&
    forall i :: 0 <= i < p.N() ==>
      InputWeight(p, i) >= 0.0 && p.stages[i].latJerk >= 0.0
  }

  lemma {:induction false} SumsNonnegative(p: Problem, u: Vec, k: nat)
    requires Scalar(p) && NonnegativeWeights(p) && |u| == p.N() && k <= p.N()
    ensures InputCost(p, u, k) >= 0.0
    ensures k < p.N() ==> RateCost(p, u, k) >= 0.0 && JerkCost(p, u, k) >= 0.0
    ensures 1 <= k < p.N() ==> AccCost(p, u, k) >= 0.0
  {
    hide InputWeight, Weighted, RateWeight, JerkWeight, AccWeight;
    if k > 0 {
      SumsNonnegative(p, u, k - 1);
      WeightsNonnegative(p, k - 1);
    }
  }

  lemma WeightsNonnegative(p: Problem, i: nat)
    requires Scalar(p) && NonnegativeWeights(p) && i < p.N()
    ensures RateWeight(p) >= 0.0 && AccWeight(p) >= 0.0 && JerkWeight(p, i) >= 0.0
  {
    hide InputWeight, AccWeight, OverSquared, SpeedWeighted;
    AccIs(p);
    SquareTimes(PerDt2(p), p.steerAcc);
    OverSquare(p.steerRate, p.dt);
    SpeedSquare(p.stages[i].vx, p.stages[i].latJerk);
    OverSquare(SpeedWeighted(p.stages[i].vx, p.stages[i].latJerk), p.dt);
  }

  lemma SpeedSquare(v: real, w: real)
    requires w >= 0.0
    ensures SpeedWeighted(v, w) >= 0.0
  {
    assert v * v >= 0.0;
  }

  lemma SquareTimes(v: real, w: real)
    requires w >= 0.0
    ensures w * v * v >= 0.0
  {
    SpeedSquare(v, w);
    assert w * v * v == v * v * w;
  }

  lemma OverSquare(w: real, d: real)
    requires w >= 0.0 && d > 0.0
    ensures OverSquared(w, d) >= 0.0
  {
    Product(w, d, d);
    SquareTimes(1.0 / d, w);
  }

  lemma FirstStepNonnegative(p: Problem, u: Vec)
    requires Scalar(p) && NonnegativeWeights(p) && |u| >= 2
    ensures FirstStepCost(p, u) >= 0.0
  {
    hide Weighted, InputWeight, PerDt2, PerDtPeriod, PerPeriod2, PerPeriod;
  }

  lemma InputCostsNonnegative(p: Problem, u: Vec)
    requires Scalar(p) && NonnegativeWeights(p) && |u| == p.N()
    ensures InputCost(p, u, p.N()) >= 0.0 && SteerCost(p, u) >= 0.0
    ensures JerkCost(p, u, if p.N() < 2 then 0 else p.N() - 1) >= 0.0
  {
    hide InputCost, RateCost, AccCost, FirstStepCost, NonnegativeWeights;
    SumsNonnegative(p, u, p.N());
    if p.N() >= 1 { SumsNonnegative(p, u, p.N() - 1); }
    if p.N() >= 2 {
      hide JerkCost;
      FirstStepNonnegative(p, u);
    }
  }

  /** What an input sequence costs by itself. */
  function InputTotal(p: Problem, u: Vec): real
    requires Scalar(p) && |u| == p.N()
  {
    InputCost(p, u, p.N()) + SteerCost(p, u) + JerkCost(p, u, if p.N() < 2 then 0 else p.N() - 1)
  }

  /** u' (R1ex + R2ex) u is the explicit sum of weighted squares, hence nonnegative for
      nonnegative weights. */
  lemma InputWeightIsSumOfSquares(p: Problem, R1: Matrix, R2: Matrix, u: Vec)
    requires Scalar(p) && R1.rows == R1.cols == R2.rows == R2.cols == p.N() == |u|
    requires InputAndSteer(p, R1) && JerkDone(p, R2, if p.N() < 2 then 0 else p.N() - 1)
    ensures Quad(Add(R1, R2), u) == InputTotal(p, u)
    ensures NonnegativeWeights(p) ==> Quad(Add(R1, R2), u) >= 0.0
  {
    hide Bil, InputCost, JerkCost, SteerCost, NonnegativeWeights, Add, Symmetric;
    BilSum(R1, R2, u, u);
    if NonnegativeWeights(p) { InputCostsNonnegative(p, u); }
  }

  // ----- convexity -----

  predicate NonnegativeOutputWeights(p: Problem) {
    forall i :: 0 <= i < p.N() ==> LatWeight(p, i) >= 0.0 && HeadingWeight(p, i) >= 0.0
  }

  lemma StageQNonnegative(p: Problem, i: nat, y: Vec)
    requires p.Shaped() && NonnegativeOutputWeights(p) && i < p.N() && |y| == p.dimY
    ensures Quad(StageQ(p, i), y) >= 0.0
  {
    hide Bil, StageQ, LatWeight, HeadingWeight, Weighted;
    StageQQuad(p, i, y);
  }

  lemma NextQuad(bs: seq<Matrix>, d: nat, v: Vec, k: nat)
    requires Blocks(bs, d) && |v| == |bs| * d && 0 < k <= |bs|
    ensures |Slice(v, k - 1, d)| == d && bs[k - 1].rows == bs[k - 1].cols == d
    ensures BlockQuads(bs, d, v, k) == BlockQuads(bs, d, v, k - 1) + Quad(bs[k - 1], Slice(v, k - 1, d))
  {
    hide Bil;
    BlockFits(d, k - 1, |bs|);
  }

  lemma {:induction false} OutputQuadsNonnegative(p: Problem, y: Vec, k: nat)
    requires p.Shaped() && NonnegativeOutputWeights(p) && |y| == p.YDim() && k <= p.N()
    ensures BlockQuads(StageQs(p), p.dimY, y, k) >= 0.0
  {
    hide Bil, StageQ, StageQs, Blocks, Slice, NonnegativeOutputWeights, BlockQuads, Problem.Shaped;
    if k == 0 {
      NoQuads(StageQs(p), p.dimY, y);
    } else {
      OutputQuadsNonnegative(p, y, k - 1);
      NextQuad(StageQs(p), p.dimY, y, k);
      StageQNonnegative(p, k - 1, Slice(y, k - 1, p.dimY));
    }
  }

  lemma NoQuads(bs: seq<Matrix>, d: nat, v: Vec)
    requires Blocks(bs, d) && |v| == |bs| * d
    ensures BlockQuads(bs, d, v, 0) == 0.0
  {
  }

  /** The matrix of the program is positive semidefinite for nonnegative weights: it is convex. */
  lemma HessianPSD(p: Problem, m: Prediction, c: Costs)
    requires Scalar(p) && StackedTo(p, m, p.N()) && Weights(p, c) && Fit(m, c)
    requires NonnegativeWeights(p) && NonnegativeOutputWeights(p)
    ensures PSD(Hessian(m, c))
  {
    hide Bil, StageQs, MulVec, Mul, Hessian, BlockQuads, InputCost, SteerCost, JerkCost, NonnegativeWeights;
    hide NonnegativeOutputWeights, BStackedTo, Symmetric;
    var CB := Mul(c.Cex, m.Bex);
    ShapesOf(p, m, c);
    HessianSymmetric(m, c);
    forall U: Vec | |U| == p.N() ensures Quad(Hessian(m, c), U) >= 0.0 {
      HessianBil(m, c, U, U);
      DiagonalShape(c.Qex, StageQs(p), p.dimY, p.N());
      OutputQuadsNonnegative(p, MulVec(CB, U), p.N());
      InputCostsNonnegative(p, U);
    }
  }

  function Gradient(H: Matrix, f: Vec, U: Vec): (g: Vec)
    requires H.rows == H.cols == |f| == |U|
    ensures |g| == |U|
  {
    VAdd(MulVec(H, U), f)
  }

  lemma ObjectiveAround(H: Matrix, f: Vec, U: Vec, V: Vec)
    requires Symmetric(H) && H.rows == |f| == |U| == |V|
    ensures Objective(H, f, V) ==
            Objective(H, f, U) + Dot(Gradient(H, f, U), VSub(V, U)) + Quad(H, VSub(V, U)) / 2.0
  {
    hide Dot, MulVec, Symmetric;
    SymmetricShape(H);
    var d := VSub(V, U);
    assert VAdd(U, d) == V;
    QuadOfSum(H, U, d);
    DotAddRight(f, U, d);
    DotAdd(MulVec(H, U), f, d);
    SymmetricSwaps(H, U, d);
  }

  /** Inputs from which no admissible direction descends are optimal. */
  lemma NoDescentIsOptimal(H: Matrix, f: Vec, U: Vec, V: Vec)
    requires PSD(H) && H.rows == |f| == |U| == |V| && Dot(Gradient(H, f, U), VSub(V, U)) >= 0.0
    ensures Objective(H, f, U) <= Objective(H, f, V)
  {
    hide Objective, Gradient, Bil, Dot;
    ObjectiveAround(H, f, U, V);
    assert Quad(H, VSub(V, U)) >= 0.0;
  }

  // ----- steering rate constraints -----

  /** The first command is within reach of the previous raw one, later ones of their predecessor. */
  predicate RateLimited(prev: real, first: real, later: real, U: Vec) {
    && (|U| > 0 ==> prev - first <= U[0] <= prev + first)
    && forall i :: 1 <= i < |U| ==> -later <= U[i] - U[i - 1] <= later
  }

  /** In absolute values. */
  lemma RateLimitedIs(prev: real, first: real, later: real, U: Vec)
    ensures RateLimited(prev, first, later, U) <==>
            (|U| > 0 ==> Abs(U[0] - prev) <= first) && forall i :: 1 <= i < |U| ==> Abs(U[i] - U[i - 1]) <= later
  {
  }

  /** Row k of the constraint matrix once the rows below i have been written. */
  function RateRow(n: nat, k: nat, i: nat): (r: Vec)
    requires k < n
    ensures |r| == n
  {
    if 1 <= k < i then VSub(VUnit(n, k), VUnit(n, k - 1)) else VUnit(n, k)
  }

  lemma RateRowApplied(n: nat, k: nat, U: Vec)
    requires k < n == |U|
    ensures Dot(RateRow(n, k, n), U) == if k == 0 then U[0] else U[k] - U[k - 1]
  {
    hide Dot;
    DotUnit(n, k, U);
    if k > 0 {
      DotUnit(n, k - 1, U);
      DotSub(VUnit(n, k), VUnit(n, k - 1), U);
    }
  }

  /** A(i, j) = v */
  function SetAt(m: Matrix, i: nat, j: nat, v: real): (r: Matrix)
    requires i < m.rows && j < m.cols
    ensures r.rows == m.rows && r.cols == m.cols
  {
    SetBlock(m, i, j, Grid(1, 1, [[v]]))
  }

  lemma NextRateRow(n: nat, A: Matrix, i: nat, B: Matrix)
    requires 1 <= i < n == A.rows == A.cols && B == SetAt(A, i, i - 1, -1.0)
    requires forall k :: 0 <= k < n ==> A.data[k] == RateRow(n, k, i)
    ensures forall k :: 0 <= k < n ==> B.data[k] == RateRow(n, k, i + 1)
  {
    hide SetBlock;
    forall k | 0 <= k < n ensures B.data[k] == RateRow(n, k, i + 1) {
      var row := RateRow(n, k, i + 1);
      forall j | 0 <= j < n ensures B.data[k][j] == row[j] {
        SetBlockEntry(A, i, i - 1, Grid(1, 1, [[-1.0]]), k, j);
      }
    }
  }

  lemma FirstRateRow(n: nat, k: nat)
    requires k < n
    ensures Identity(n).data[k] == RateRow(n, k, 1)
  {
  }

  predicate Between(lb: Vec, x: Vec, ub: Vec)
    requires |lb| == |x| == |ub|
  {
    forall i :: 0 <= i < |x| ==> lb[i] <= x[i] <= ub[i]
  }

  function Bound(n: nat, first: real, later: real): (b: Vec)
    requires n >= 1
    ensures |b| == n && b[0] == first && forall i :: 1 <= i < n ==> b[i] == later
  {
    seq(n, _ => later)[0 := first]
  }

  /** The rows of A U. */
  predicate Rates(x: Vec, U: Vec) {
    && |x| == |U|
    && (|U| > 0 ==> x[0] == U[0])
    && forall k :: 1 <= k < |U| ==> x[k] == U[k] - U[k - 1]
  }

  lemma RateRows(A: Matrix, U: Vec)
    requires |U| >= 1 && A.rows == A.cols == |U|
    requires forall k :: 0 <= k < |U| ==> A.data[k] == RateRow(|U|, k, |U|)
    ensures Rates(MulVec(A, U), U)
  {
    hide RateRow, Dot;
    var x := MulVec(A, U);
    RateRowApplied(|U|, 0, U);
    forall k | 1 <= k < |U| ensures x[k] == U[k] - U[k - 1] {
      RateRowApplied(|U|, k, U);
    }
  }

  lemma RatesAreBounded(prev: real, first: real, later: real, x: Vec, U: Vec)
    requires |U| >= 1 && Rates(x, U)
    ensures Between(Bound(|U|, prev - first, -later), x, Bound(|U|, prev + first, later)) <==>
            RateLimited(prev, first, later, U)
  {
    hide Bound;
    var lb, ub := Bound(|U|, prev - first, -later), Bound(|U|, prev + first, later);
    if Between(lb, x, ub) {
      assert lb[0] <= x[0] <= ub[0];
      forall i | 1 <= i < |U| ensures -later <= U[i] - U[i - 1] <= later {
        assert lb[i] <= x[i] <= ub[i];
      }
    }
    if RateLimited(prev, first, later, U) {
      forall i | 0 <= i < |U| ensures lb[i] <= x[i] <= ub[i] {
        if i > 0 { assert -later <= U[i] - U[i - 1] <= later; }
      }
    }
  }

  /** The constraint matrix and its bounds hold exactly when the steering rate limit does. */
  method RateConstraints(p: Problem, prev: real, rateLim: real) returns (A: Matrix, lbA: Vec, ubA: Vec)
    requires Scalar(p) && p.N() >= 1
    ensures A.rows == A.cols == |lbA| == |ubA| == p.N()
    ensures forall U: Vec :: |U| == p.N() ==>
      (Between(lbA, MulVec(A, U), ubA) <==> RateLimited(prev, rateLim * p.ctrlPeriod, rateLim * p.dt, U))
  {
    hide SetAt, RateRow, Dot, Between, RateLimited, MulVec, Identity, Bound, Rates;
    var n := p.N();
    A := Identity(n);
    forall k | 0 <= k < n ensures A.data[k] == RateRow(n, k, 1) { FirstRateRow(n, k); }
    var i := 1;
    while i < n
      invariant 1 <= i <= n && A.rows == A.cols == n
      invariant forall k :: 0 <= k < n ==> A.data[k] == RateRow(n, k, i)
    {
      NextRateRow(n, A, i, SetAt(A, i, i - 1, -1.0));
      A := SetAt(A, i, i - 1, -1.0);
      i := i + 1;
    }
    var first, later := rateLim * p.ctrlPeriod, rateLim * p.dt;
    lbA := Bound(n, prev - first, -later);
    ubA := Bound(n, prev + first, later);
    forall U: Vec | |U| == n ensures Between(lbA, MulVec(A, U), ubA) <==> RateLimited(prev, first, later, U) {
      RateRows(A, U);
      RatesAreBounded(prev, first, later, MulVec(A, U), U);
    }
  }
}
