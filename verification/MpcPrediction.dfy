/** The horizon matrices of the lateral MPC: X = Aex * x0 + Bex * U + Wex.

    The vehicle model enters as one set of discrete matrices per step. The loop of
    `PredictionMatrices` writes the stacked blocks; the simulation `StateAt` steps the model. */
module MpcPrediction {
  import opened Matrices

  /** One step of the horizon: the discretised model, and the weights at its curvature. */
  datatype Stage = Stage(
    Ad: Matrix, Bd: Matrix, Wd: Vec, Cd: Matrix, uref: Vec, vx: real,
    latError: real, headingError: real, headingErrorSqVel: real,
    steerInput: real, steerInputSqVel: real, latJerk: real)

  datatype Problem = Problem(
    dimX: nat, dimU: nat, dimY: nat, stages: seq<Stage>, dt: real, ctrlPeriod: real,
    terminalLatError: real, terminalHeadingError: real, steerRate: real, steerAcc: real, zeroFfSteer: real)
  {
    function N(): nat { |stages| }
    function XDim(): nat { N() * dimX }
    function UDim(): nat { N() * dimU }
    function YDim(): nat { N() * dimY }

    ghost predicate Shaped() {
      dimU >= 1 && dimY >= 2 && dt > 0.0 && ctrlPeriod > 0.0 &&
      forall i :: 0 <= i < N() ==> StageShaped(stages[i])
    }

    predicate StageShaped(s: Stage) {
      && s.Ad.rows == s.Ad.cols == dimX && s.Bd.rows == dimX && s.Bd.cols == dimU
      && |s.Wd| == dimX && s.Cd.rows == dimY && s.Cd.cols == dimX && |s.uref| == dimU
    }
  }

  /** Entries d * k to d * k + d of v. */
  function Slice(v: Vec, k: nat, d: nat): (r: Vec)
    ensures k * d + d <= |v| ==> |r| == d
  {
    if k * d + d <= |v| then v[k * d..k * d + d] else []
  }

  /** Rows d * k to d * k + d of m. */
  function RowBlock(m: Matrix, k: nat, d: nat): (r: Matrix)
    ensures k * d + d <= m.rows ==> r.rows == d && r.cols == m.cols
  {
    if k * d + d <= m.rows then Block(m, k * d, 0, d, m.cols) else Zero(0, 0)
  }

  /** Writes b to the block whose top left entry is (i * d, j * e). */
  function Place(m: Matrix, i: nat, d: nat, j: nat, e: nat, b: Matrix): (r: Matrix)
    ensures r.rows == m.rows && r.cols == m.cols
  {
    if i * d + b.rows <= m.rows && j * e + b.cols <= m.cols then SetBlock(m, i * d, j * e, b) else m
  }

  /** The d x e block whose top left entry is (i * d, j * e). */
  function Part(m: Matrix, i: nat, d: nat, j: nat, e: nat): (r: Matrix)
    ensures r.rows == d && r.cols == e
  {
    if i * d + d <= m.rows && j * e + e <= m.cols then Block(m, i * d, j * e, d, e) else Zero(d, e)
  }

  /** Writes b to v from entry k * d on. */
  function PlaceSlice(v: Vec, k: nat, d: nat, b: Vec): (r: Vec)
    ensures |r| == |v|
  {
    if k * d + |b| <= |v| then SetSlice(v, k * d, b) else v
  }

  function SetSlice(v: Vec, lo: nat, b: Vec): (r: Vec)
    requires lo + |b| <= |v|
    ensures |r| == |v|
  {
    v[..lo] + b + v[lo + |b|..]
  }

  // ----- simulation -----

  /** The input of step k. */
  function InputAt(p: Problem, U: Vec, k: nat): (u: Vec)
    requires |U| == p.UDim() && k < p.N()
    ensures |u| == p.dimU
  {
    BlockFits(p.dimU, k, p.N());
    Slice(U, k, p.dimU)
  }

  /** The state after k steps of the model from x0 under the stacked inputs U. */
  function StateAt(p: Problem, x0: Vec, U: Vec, k: nat): (x: Vec)
    requires p.Shaped() && |x0| == p.dimX && |U| == p.UDim() && k <= p.N()
    ensures |x| == p.dimX
  {
    if k == 0 then x0 else
      var s := p.stages[k - 1];
      VAdd(VAdd(MulVec(s.Ad, StateAt(p, x0, U, k - 1)), MulVec(s.Bd, InputAt(p, U, k - 1))), s.Wd)
  }

  // ----- row blocks of the stacked matrices -----

  /** The simulation starts in x0 and steps the model with the inputs of each step. */
  lemma SimulationSteps(p: Problem, x0: Vec, U: Vec, k: nat)
    requires p.Shaped() && |x0| == p.dimX && |U| == p.UDim() && k < p.N()
    ensures k * p.dimU + p.dimU <= |U| && StateAt(p, x0, U, 0) == x0
    ensures var s, u := p.stages[k], U[k * p.dimU..k * p.dimU + p.dimU];
            StateAt(p, x0, U, k + 1) == VAdd(VAdd(MulVec(s.Ad, StateAt(p, x0, U, k)), MulVec(s.Bd, u)), s.Wd)
  {
    hide MulVec;
    BlockFits(p.dimU, k, p.N());
  }

  function ARow(p: Problem, k: nat): (r: Matrix)
    requires p.Shaped() && k < p.N()
    ensures r.rows == r.cols == p.dimX
  {
    if k == 0 then p.stages[0].Ad else Mul(p.stages[k].Ad, ARow(p, k - 1))
  }

  function WRow(p: Problem, k: nat): (r: Vec)
    requires p.Shaped() && k < p.N()
    ensures |r| == p.dimX
  {
    if k == 0 then p.stages[0].Wd else VAdd(MulVec(p.stages[k].Ad, WRow(p, k - 1)), p.stages[k].Wd)
  }

  /** Row block k of Bex before the input of step k is added. */
  function BCarried(p: Problem, k: nat): (r: Matrix)
    requires p.Shaped() && k < p.N()
    ensures r.rows == p.dimX && r.cols == p.UDim()
    decreases k, 0
  {
    if k == 0 then Zero(p.dimX, p.UDim()) else Mul(p.stages[k].Ad, BRow(p, k - 1))
  }

  function BRow(p: Problem, k: nat): (r: Matrix)
    requires p.Shaped() && k < p.N()
    ensures r.rows == p.dimX && r.cols == p.UDim()
    decreases k, 1
  {
    Place(BCarried(p, k), 0, p.dimX, k, p.dimU, p.stages[k].Bd)
  }

  /** Columns from c on are zero. */
  ghost predicate ZeroFrom(m: Matrix, c: nat) {
    forall i, j :: 0 <= i < m.rows && c <= j < m.cols ==> m.data[i][j] == 0.0
  }

  lemma MulZeroFrom(a: Matrix, m: Matrix, c: nat)
    requires a.cols == m.rows && ZeroFrom(m, c)
    ensures ZeroFrom(Mul(a, m), c)
  {
    forall i, j | 0 <= i < a.rows && c <= j < m.cols ensures Mul(a, m).data[i][j] == 0.0 {
      assert Col(m, j) == VZero(m.rows);
      DotZero(m.rows, a.data[i]);
    }
  }

  /** Bex has no entry right of its diagonal blocks: later inputs do not act on earlier states. */
  lemma {:induction false} BRowCausal(p: Problem, k: nat)
    requires p.Shaped() && k < p.N()
    ensures ZeroFrom(BCarried(p, k), k * p.dimU)
    ensures ZeroFrom(BRow(p, k), (k + 1) * p.dimU)
  {
    BlockFits(p.dimU, k, p.N());
    if k > 0 {
      BRowCausal(p, k - 1);
      MulZeroFrom(p.stages[k].Ad, BRow(p, k - 1), k * p.dimU);
    }
    PlaceIsSet(BCarried(p, k), k, p.dimU, p.stages[k].Bd);
    SetKeepsZeroFrom(BCarried(p, k), k * p.dimU, p.stages[k].Bd);
  }

  lemma SetKeepsZeroFrom(m: Matrix, c: nat, b: Matrix)
    requires m.rows == b.rows && c + b.cols <= m.cols && ZeroFrom(m, c)
    ensures ZeroFrom(SetBlock(m, 0, c, b), c + b.cols)
  {
  }

  /** Overwriting a zero block is adding to it. */
  lemma SetOnZero(m: Matrix, c: nat, b: Matrix)
    requires m.rows == b.rows && c + b.cols <= m.cols && ZeroFrom(m, c)
    ensures SetBlock(m, 0, c, b) == Add(m, SetBlock(Zero(m.rows, m.cols), 0, c, b))
  {
    hide SetBlock;
    forall i, j | 0 <= i < m.rows && 0 <= j < m.cols
      ensures SetBlock(m, 0, c, b).data[i][j] == Add(m, SetBlock(Zero(m.rows, m.cols), 0, c, b)).data[i][j]
    {
      SetBlockEntry(m, 0, c, b, i, j);
      SetBlockEntry(Zero(m.rows, m.cols), 0, c, b, i, j);
    }
    Extensional(SetBlock(m, 0, c, b), Add(m, SetBlock(Zero(m.rows, m.cols), 0, c, b)));
  }

  lemma SetOnZeroMulVec(m: Matrix, c: nat, b: Matrix, u: Vec)
    requires m.rows == b.rows && c + b.cols <= m.cols == |u| && ZeroFrom(m, c)
    ensures MulVec(SetBlock(m, 0, c, b), u) == VAdd(MulVec(m, u), MulVec(b, u[c..c + b.cols]))
  {
    hide SetBlock, Dot;
    SetOnZero(m, c, b);
    MulVecSum(m, SetBlock(Zero(m.rows, m.cols), 0, c, b), u);
    PaddedMulVec(b, m.rows, 0, c, u);
    var v := MulVec(b, u[c..c + b.cols]);
    assert VZero(0) + (v + VZero(0)) == v;
  }

  lemma BRowApplied(p: Problem, k: nat, U: Vec)
    requires p.Shaped() && k < p.N() && |U| == p.UDim()
    ensures MulVec(BRow(p, k), U) ==
            VAdd(MulVec(BCarried(p, k), U), MulVec(p.stages[k].Bd, InputAt(p, U, k)))
  {
    hide MulVec, BCarried, SetBlock;
    BlockFits(p.dimU, k, p.N());
    BRowCausal(p, k);
    PlaceIsSet(BCarried(p, k), k, p.dimU, p.stages[k].Bd);
    SetOnZeroMulVec(BCarried(p, k), k * p.dimU, p.stages[k].Bd, U);
  }

  /** One row block of Aex * x0 + Bex * U + Wex. */
  function RowValue(p: Problem, x0: Vec, U: Vec, k: nat): Vec
    requires p.Shaped() && |x0| == p.dimX && |U| == p.UDim() && k < p.N()
  {
    VAdd(VAdd(MulVec(ARow(p, k), x0), MulVec(BRow(p, k), U)), WRow(p, k))
  }

  lemma Distribute(a: Matrix, x: Vec, y: Vec, w: Vec)
    requires a.cols == |x| == |y| == |w|
    ensures MulVec(a, VAdd(VAdd(x, y), w)) == VAdd(VAdd(MulVec(a, x), MulVec(a, y)), MulVec(a, w))
  {
    MulVecLinear(a, VAdd(x, y), w);
    MulVecLinear(a, x, y);
  }

  lemma Regroup(x: Vec, y: Vec, w: Vec, b: Vec, d: Vec)
    requires |x| == |y| == |w| == |b| == |d|
    ensures VAdd(VAdd(VAdd(VAdd(x, y), w), b), d) == VAdd(VAdd(x, VAdd(y, b)), VAdd(w, d))
  {
  }

  lemma {:induction false} RowValueIsState(p: Problem, x0: Vec, U: Vec, k: nat)
    requires p.Shaped() && |x0| == p.dimX && |U| == p.UDim() && k < p.N()
    ensures RowValue(p, x0, U, k) == StateAt(p, x0, U, k + 1)
  {
    hide MulVec, Mul, Dot, SetBlock, InputAt;
    var s := p.stages[k];
    BRowApplied(p, k, U);
    var b := MulVec(s.Bd, InputAt(p, U, k));
    if k == 0 {
      assert MulVec(BCarried(p, 0), U) == VZero(p.dimX) by { ZeroMulVec(p.dimX, U); }
    } else {
      RowValueIsState(p, x0, U, k - 1);
      var x, y, w := MulVec(ARow(p, k - 1), x0), MulVec(BRow(p, k - 1), U), WRow(p, k - 1);
      Distribute(s.Ad, x, y, w);
      MulVecMul(s.Ad, ARow(p, k - 1), x0);
      MulVecMul(s.Ad, BRow(p, k - 1), U);
      Regroup(MulVec(s.Ad, x), MulVec(s.Ad, y), MulVec(s.Ad, w), b, s.Wd);
    }
  }

  lemma ZeroMulVec(r: nat, u: Vec)
    ensures MulVec(Zero(r, |u|), u) == VZero(r)
  {
    forall i | 0 <= i < r ensures MulVec(Zero(r, |u|), u)[i] == 0.0 { DotZero(|u|, u); }
  }

  // ----- the stacked matrices -----

  datatype Prediction = Prediction(Aex: Matrix, Bex: Matrix, Wex: Vec) {
    predicate Sized(p: Problem) {
      && Aex.rows == Bex.rows == |Wex| == p.XDim()
      && Aex.cols == p.dimX && Bex.cols == p.UDim()
    }
  }

  /** The first k row blocks are set; those of Bex below are still zero. */
  ghost predicate StackedTo(p: Problem, m: Prediction, k: nat)
    requires p.Shaped() && k <= p.N()
  {
    && m.Sized(p)
    && (forall i :: 0 <= i < k ==> RowBlock(m.Aex, i, p.dimX) == ARow(p, i))
    && (forall i :: 0 <= i < k ==> Slice(m.Wex, i, p.dimX) == WRow(p, i))
    && BStackedTo(p, m.Bex, k)
  }

  ghost predicate BStackedTo(p: Problem, Bex: Matrix, k: nat)
    requires p.Shaped() && k <= p.N()
  {
    && (forall i :: 0 <= i < k ==> RowBlock(Bex, i, p.dimX) == BRow(p, i))
    && (forall i :: k <= i < p.N() ==> RowBlock(Bex, i, p.dimX) == Zero(p.dimX, p.UDim()))
  }

  /** The prediction equation used for the cost and for the predicted trajectory. */
  function Predicted(m: Prediction, x0: Vec, U: Vec): (x: Vec)
    requires |x0| == m.Aex.cols && |U| == m.Bex.cols && m.Aex.rows == m.Bex.rows == |m.Wex|
    ensures |x| == |m.Wex|
  {
    VAdd(VAdd(MulVec(m.Aex, x0), MulVec(m.Bex, U)), m.Wex)
  }

  lemma RowBlockMulVec(m: Matrix, k: nat, d: nat, v: Vec)
    requires k * d + d <= m.rows && |v| == m.cols
    ensures Slice(MulVec(m, v), k, d) == MulVec(RowBlock(m, k, d), v)
  {
    hide MulVec;
    RowsMulVec(m, k * d, d, v);
  }

  lemma RowsMulVec(m: Matrix, lo: nat, d: nat, v: Vec)
    requires lo + d <= m.rows && |v| == m.cols
    ensures MulVec(m, v)[lo..lo + d] == MulVec(Block(m, lo, 0, d, m.cols), v)
  {
    hide Dot;
    var b := Block(m, lo, 0, d, m.cols);
    forall i | 0 <= i < d ensures MulVec(m, v)[lo..lo + d][i] == MulVec(b, v)[i] {
      assert b.data[i] == m.data[lo + i];
    }
  }

  /** Row block k of Aex * x0 + Bex * U + Wex is the state reached by stepping the model. */
  lemma PredictionIsSimulation(p: Problem, m: Prediction, x0: Vec, U: Vec, k: nat)
    requires p.Shaped() && StackedTo(p, m, p.N()) && |x0| == p.dimX && |U| == p.UDim() && k < p.N()
    ensures Slice(Predicted(m, x0, U), k, p.dimX) == StateAt(p, x0, U, k + 1)
  {
    hide MulVec, StateAt, ARow, BRow, WRow, RowBlock;
    BlockFits(p.dimX, k, p.N());
    RowValueIsState(p, x0, U, k);
    RowBlockMulVec(m.Aex, k, p.dimX, x0);
    RowBlockMulVec(m.Bex, k, p.dimX, U);
    SliceAdd(MulVec(m.Aex, x0), MulVec(m.Bex, U), k, p.dimX);
    SliceAdd(VAdd(MulVec(m.Aex, x0), MulVec(m.Bex, U)), m.Wex, k, p.dimX);
  }

  lemma SliceAdd(a: Vec, b: Vec, k: nat, d: nat)
    requires |a| == |b| && k * d + d <= |a|
    ensures Slice(VAdd(a, b), k, d) == VAdd(Slice(a, k, d), Slice(b, k, d))
  {
  }

  // ----- the construction -----

  /** Writing into row block i leaves the other row blocks alone. */
  lemma PlaceInRow(m: Matrix, n: nat, d: nat, i: nat, j: nat, e: nat, b: Matrix, k: nat)
    requires m.rows == n * d && i < n && k < n && b.rows == d && j * e + b.cols <= m.cols
    ensures RowBlock(Place(m, i, d, j, e, b), k, d) ==
            if k == i then Place(RowBlock(m, i, d), 0, d, j, e, b) else RowBlock(m, k, d)
  {
    hide SetBlock, Block;
    BlockFits(d, k, n);
    BlockFits(d, i, n);
    var lo, hi := k * d, i * d;
    assert k < i ==> lo + d <= hi by { if k < i { BlockFits(d, k, i); } }
    assert i < k ==> hi + d <= lo by { if i < k { BlockFits(d, i, k); } }
    RowsOfSet(m, hi, j * e, b, lo);
  }

  lemma RowsOfSet(m: Matrix, hi: nat, c: nat, b: Matrix, lo: nat)
    requires hi + b.rows <= m.rows && lo + b.rows <= m.rows && c + b.cols <= m.cols
    requires lo + b.rows <= hi || hi + b.rows <= lo || lo == hi
    ensures Block(SetBlock(m, hi, c, b), lo, 0, b.rows, m.cols) ==
            if lo == hi && b.rows > 0 then SetBlock(Block(m, lo, 0, b.rows, m.cols), 0, c, b)
            else Block(m, lo, 0, b.rows, m.cols)
    ensures b.rows == 0 ==> SetBlock(Block(m, lo, 0, b.rows, m.cols), 0, c, b) == Block(m, lo, 0, b.rows, m.cols)
  {
    hide SetBlock;
    var g, w := SetBlock(m, hi, c, b), Block(m, lo, 0, b.rows, m.cols);
    var s := SetBlock(w, 0, c, b);
    forall i, j | 0 <= i < b.rows && 0 <= j < m.cols
      ensures g.data[lo + i][j] == if lo == hi then s.data[i][j] else w.data[i][j]
    {
      SetBlockEntry(m, hi, c, b, lo + i, j);
      SetBlockEntry(w, 0, c, b, i, j);
    }
    if lo == hi {
      Extensional(Block(g, lo, 0, b.rows, m.cols), s);
    } else {
      Extensional(Block(g, lo, 0, b.rows, m.cols), w);
    }
    if b.rows == 0 { Extensional(s, w); }
  }

  lemma PlaceSliceAt(v: Vec, n: nat, d: nat, i: nat, b: Vec, k: nat)
    requires |v| == n * d && i < n && k < n && |b| == d
    ensures Slice(PlaceSlice(v, i, d, b), k, d) == if k == i then b else Slice(v, k, d)
  {
    hide SetSlice;
    BlockFits(d, k, n);
    BlockFits(d, i, n);
    var lo, hi := k * d, i * d;
    assert k < i ==> lo + d <= hi by { if k < i { BlockFits(d, k, i); } }
    assert i < k ==> hi + d <= lo by { if i < k { BlockFits(d, i, k); } }
    SetSliceSlices(v, hi, b, lo);
  }

  lemma SetSliceSlices(v: Vec, hi: nat, b: Vec, lo: nat)
    requires hi + |b| <= |v| && lo + |b| <= |v|
    requires lo + |b| <= hi || hi + |b| <= lo || lo == hi
    ensures SetSlice(v, hi, b)[lo..lo + |b|] == if lo == hi then b else v[lo..lo + |b|]
  {
  }

  /** m with the columns from c on cleared. */
  function Cut(m: Matrix, c: nat): (r: Matrix)
    ensures r.rows == m.rows && r.cols == m.cols
  {
    Grid(m.rows, m.cols, seq(m.rows, i requires 0 <= i < m.rows =>
      seq(m.cols, j requires 0 <= j < m.cols => if j < c then m.data[i][j] else 0.0)))
  }

  lemma CutEnds(m: Matrix, c: nat)
    ensures Cut(m, 0) == Zero(m.rows, m.cols)
    ensures ZeroFrom(m, c) ==> Cut(m, c) == m
  {
    Extensional(Cut(m, 0), Zero(m.rows, m.cols));
    if ZeroFrom(m, c) { Extensional(Cut(m, c), m); }
  }

  lemma CutNext(a: Matrix, m: Matrix, c: nat, d: nat)
    requires a.cols == m.rows && c + d <= m.cols
    ensures SetBlock(Cut(Mul(a, m), c), 0, c, Mul(a, Block(m, 0, c, m.rows, d))) == Cut(Mul(a, m), c + d)
  {
    hide SetBlock;
    var b := Mul(a, Block(m, 0, c, m.rows, d));
    var l, r := SetBlock(Cut(Mul(a, m), c), 0, c, b), Cut(Mul(a, m), c + d);
    forall i, j | 0 <= i < a.rows && 0 <= j < m.cols ensures l.data[i][j] == r.data[i][j] {
      SetBlockEntry(Cut(Mul(a, m), c), 0, c, b, i, j);
      if c <= j < c + d {
        assert Col(Block(m, 0, c, m.rows, d), j - c) == Col(m, j);
      }
    }
    Extensional(l, r);
  }

  lemma PartOfRowBlock(m: Matrix, n: nat, d: nat, i: nat, j: nat, e: nat)
    requires m.rows == n * d && i < n && j * e + e <= m.cols
    ensures Part(m, i, d, j, e) == Part(RowBlock(m, i, d), 0, d, j, e)
  {
    BlockFits(d, i, n);
    BlockOfBlock(m, i * d, d, j * e, e);
  }

  lemma BlockOfBlock(m: Matrix, lo: nat, d: nat, c: nat, e: nat)
    requires lo + d <= m.rows && c + e <= m.cols
    ensures Block(m, lo, c, d, e) == Block(Block(m, lo, 0, d, m.cols), 0, c, d, e)
  {
    Extensional(Block(m, lo, c, d, e), Block(Block(m, lo, 0, d, m.cols), 0, c, d, e));
  }

  lemma PartIsBlock(m: Matrix, j: nat, e: nat)
    requires j * e + e <= m.cols
    ensures Part(m, 0, m.rows, j, e) == Block(m, 0, j * e, m.rows, e)
  {
  }

  /** Row block i of Bex holds the first j carried blocks; the others are as in `before`. */
  ghost predicate Carrying(p: Problem, before: Matrix, Bex: Matrix, i: nat, j: nat)
    requires p.Shaped() && 0 < i < p.N() && j <= i
  {
    && Bex.rows == before.rows && Bex.cols == before.cols
    && RowBlock(Bex, i, p.dimX) == Cut(BCarried(p, i), j * p.dimU)
    && forall k :: 0 <= k < p.N() && k != i ==> RowBlock(Bex, k, p.dimX) == RowBlock(before, k, p.dimX)
  }

  /** One pass of the inner loop. */
  lemma CarryStep(p: Problem, before: Matrix, Bex: Matrix, i: nat, j: nat)
    requires p.Shaped() && 0 < i < p.N() && j < i && Carrying(p, before, Bex, i, j)
    requires Bex.rows == p.XDim() && Bex.cols == p.UDim()
    requires RowBlock(before, i - 1, p.dimX) == BRow(p, i - 1)
    ensures Carrying(p, before,
              Place(Bex, i, p.dimX, j, p.dimU, Mul(p.stages[i].Ad, Part(Bex, i - 1, p.dimX, j, p.dimU))), i, j + 1)
  {
    hide Place, SetBlock, Mul, Cut, RowBlock, BRow, Part;
    var dx, du := p.dimX, p.dimU;
    BlockFits(du, j, p.N());
    var b := Mul(p.stages[i].Ad, Part(Bex, i - 1, dx, j, du));
    PartOfRowBlock(Bex, p.N(), dx, i - 1, j, du);
    PartIsBlock(BRow(p, i - 1), j, du);
    CutNext(p.stages[i].Ad, BRow(p, i - 1), j * du, du);
    PlaceIsSet(Cut(BCarried(p, i), j * du), j, du, b);
    forall k | 0 <= k < p.N()
      ensures RowBlock(Place(Bex, i, dx, j, du, b), k, dx) ==
              if k == i then Place(RowBlock(Bex, i, dx), 0, dx, j, du, b) else RowBlock(Bex, k, dx)
    {
      PlaceInRow(Bex, p.N(), dx, i, j, du, b, k);
    }
  }

  lemma PlaceIsSet(m: Matrix, j: nat, e: nat, b: Matrix)
    requires m.rows == b.rows && j * e + b.cols <= m.cols
    ensures Place(m, 0, m.rows, j, e, b) == SetBlock(m, 0, j * e, b)
  {
  }

  lemma CarryStart(p: Problem, Bex: Matrix, i: nat)
    requires p.Shaped() && 0 < i < p.N() && BStackedTo(p, Bex, i)
    ensures Carrying(p, Bex, Bex, i, 0)
  {
    hide Mul, BRow, RowBlock;
    CutEnds(BCarried(p, i), 0);
  }

  /** The input block completes row block i. */
  lemma CarryEnd(p: Problem, before: Matrix, Bex: Matrix, i: nat)
    requires p.Shaped() && i < p.N() && BStackedTo(p, before, i)
    requires Bex.rows == p.XDim() && Bex.cols == p.UDim()
    requires if i == 0 then Bex == Place(before, 0, p.dimX, 0, p.dimU, p.stages[0].Bd)
             else Carrying(p, before, Bex, i, i)
    ensures BStackedTo(p, Place(Bex, i, p.dimX, i, p.dimU, p.stages[i].Bd), i + 1)
  {
    hide Place, Mul, Cut, RowBlock;
    BlockFits(p.dimU, i, p.N());
    BRowCausal(p, i);
    CutEnds(BCarried(p, i), i * p.dimU);
    forall k | 0 <= k < p.N()
      ensures RowBlock(Place(Bex, i, p.dimX, i, p.dimU, p.stages[i].Bd), k, p.dimX) ==
              if k == i then Place(RowBlock(Bex, i, p.dimX), 0, p.dimX, i, p.dimU, p.stages[i].Bd)
              else RowBlock(Bex, k, p.dimX)
      ensures i == 0 && k == 0 ==>
        RowBlock(Bex, 0, p.dimX) == Place(RowBlock(before, 0, p.dimX), 0, p.dimX, 0, p.dimU, p.stages[0].Bd)
      ensures i == 0 < k ==> RowBlock(Bex, k, p.dimX) == RowBlock(before, k, p.dimX)
    {
      PlaceInRow(Bex, p.N(), p.dimX, i, i, p.dimU, p.stages[i].Bd, k);
      if i == 0 { PlaceInRow(before, p.N(), p.dimX, 0, 0, p.dimU, p.stages[0].Bd, k); }
    }
    if i == 0 { PlaceTwice(BCarried(p, 0), p.dimX, p.dimU, p.stages[0].Bd); }
  }

  lemma PlaceTwice(m: Matrix, d: nat, e: nat, b: Matrix)
    ensures Place(Place(m, 0, d, 0, e, b), 0, d, 0, e, b) == Place(m, 0, d, 0, e, b)
  {
    Extensional(Place(Place(m, 0, d, 0, e, b), 0, d, 0, e, b), Place(m, 0, d, 0, e, b));
  }

  /** The column Aex and the offset Wex gain row block i. */
  lemma StackStep(p: Problem, m: Prediction, i: nat)
    requires p.Shaped() && i < p.N() && StackedTo(p, m, i)
    ensures
      var s, dx := p.stages[i], p.dimX;
      var a := if i == 0 then s.Ad else Mul(s.Ad, Part(m.Aex, i - 1, dx, 0, dx));
      && (forall k :: 0 <= k <= i ==> RowBlock(Place(m.Aex, i, dx, 0, dx, a), k, dx) == ARow(p, k))
      && |NextW(p, m.Wex, i)| == dx
      && (forall k :: 0 <= k <= i ==> Slice(PlaceSlice(m.Wex, i, dx, NextW(p, m.Wex, i)), k, dx) == WRow(p, k))
  {
    hide Place, Mul, MulVec, RowBlock, Part, PlaceSlice, Slice, BStackedTo;
    var s, dx := p.stages[i], p.dimX;
    if i > 0 {
      PartOfRowBlock(m.Aex, p.N(), dx, i - 1, 0, dx);
      PartIsBlock(ARow(p, i - 1), 0, dx);
      WholeBlock(ARow(p, i - 1));
    }
    var a := if i == 0 then s.Ad else Mul(s.Ad, Part(m.Aex, i - 1, dx, 0, dx));
    var w := NextW(p, m.Wex, i);
    RowBlockSize(m.Aex, p.N(), dx, i);
    forall k | 0 <= k <= i
      ensures RowBlock(Place(m.Aex, i, dx, 0, dx, a), k, dx) == ARow(p, k)
      ensures Slice(PlaceSlice(m.Wex, i, dx, w), k, dx) == WRow(p, k)
    {
      PlaceInRow(m.Aex, p.N(), dx, i, 0, dx, a, k);
      PlaceSliceAt(m.Wex, p.N(), dx, i, w, k);
      PlaceWhole(RowBlock(m.Aex, i, dx), a);
    }
  }

  /** Row block i of Wex from row block i - 1. */
  function NextW(p: Problem, Wex: Vec, i: nat): (w: Vec)
    requires p.Shaped() && i < p.N() && |Wex| == p.XDim()
    ensures |w| == p.dimX
  {
    if i == 0 then p.stages[0].Wd else
      BlockFits(p.dimX, i - 1, p.N());
      VAdd(MulVec(p.stages[i].Ad, Slice(Wex, i - 1, p.dimX)), p.stages[i].Wd)
  }

  lemma RowBlockSize(m: Matrix, n: nat, d: nat, i: nat)
    requires m.rows == n * d && i < n
    ensures RowBlock(m, i, d).rows == d && RowBlock(m, i, d).cols == m.cols
  {
    BlockFits(d, i, n);
  }

  lemma WholeBlock(m: Matrix)
    ensures Block(m, 0, 0, m.rows, m.cols) == m
  {
    Extensional(Block(m, 0, 0, m.rows, m.cols), m);
  }

  lemma PlaceWhole(m: Matrix, b: Matrix)
    requires m.rows == b.rows && m.cols == b.cols
    ensures Place(m, 0, m.rows, 0, m.cols, b) == b
  {
    Extensional(Place(m, 0, m.rows, 0, m.cols, b), b);
  }

  lemma StackStart(p: Problem)
    requires p.Shaped()
    ensures StackedTo(p, Prediction(Zero(p.XDim(), p.dimX), Zero(p.XDim(), p.UDim()), VZero(p.XDim())), 0)
  {
    forall i | 0 <= i < p.N()
      ensures RowBlock(Zero(p.XDim(), p.UDim()), i, p.dimX) == Zero(p.dimX, p.UDim())
    {
      ZeroRowBlock(p.N(), p.dimX, p.UDim(), i);
    }
  }

  lemma ZeroRowBlock(n: nat, d: nat, c: nat, i: nat)
    requires i < n
    ensures RowBlock(Zero(n * d, c), i, d) == Zero(d, c)
  {
    BlockFits(d, i, n);
    Extensional(RowBlock(Zero(n * d, c), i, d), Zero(d, c));
  }

  method PredictionMatrices(p: Problem) returns (m: Prediction)
    requires p.Shaped()
    ensures StackedTo(p, m, p.N())
  {
    hide Place, PlaceSlice, Part, Mul, RowBlock, Slice, BRow, ARow, WRow, BStackedTo, Carrying, Zero;
    hide Problem.XDim, Problem.UDim;
    var n, dx, du := p.N(), p.dimX, p.dimU;
    var Aex := Zero(p.XDim(), dx);
    var Bex := Zero(p.XDim(), p.UDim());
    var Wex := VZero(p.XDim());
    StackStart(p);
    var i := 0;
    while i < n
      invariant 0 <= i <= n && StackedTo(p, Prediction(Aex, Bex, Wex), i)
    {
      var s := p.stages[i];
      ghost var before := Bex;
      StackStep(p, Prediction(Aex, Bex, Wex), i);
      if i == 0 {
        Aex := Place(Aex, 0, dx, 0, dx, s.Ad);
        Bex := Place(Bex, 0, dx, 0, du, s.Bd);
        Wex := PlaceSlice(Wex, 0, dx, NextW(p, Wex, 0));
      } else {
        Aex := Place(Aex, i, dx, 0, dx, Mul(s.Ad, Part(Aex, i - 1, dx, 0, dx)));
        CarryStart(p, Bex, i);
        BStacked(p, before, i);
        var j := 0;
        while j < i
          invariant 0 <= j <= i && Bex.rows == p.XDim() && Bex.cols == p.UDim()
          invariant Carrying(p, before, Bex, i, j)
        {
          CarryStep(p, before, Bex, i, j);
          Bex := Place(Bex, i, dx, j, du, Mul(s.Ad, Part(Bex, i - 1, dx, j, du)));
          j := j + 1;
        }
        Wex := PlaceSlice(Wex, i, dx, NextW(p, Wex, i));
      }
      CarryEnd(p, before, Bex, i);
      Bex := Place(Bex, i, dx, i, du, s.Bd);
      i := i + 1;
    }
    m := Prediction(Aex, Bex, Wex);
  }

  lemma BStacked(p: Problem, Bex: Matrix, i: nat)
    requires p.Shaped() && 0 < i <= p.N() && BStackedTo(p, Bex, i)
    ensures RowBlock(Bex, i - 1, p.dimX) == BRow(p, i - 1)
  {
  }
}
