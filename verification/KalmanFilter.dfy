/** The time delay Kalman filter: a state and covariance extended by `maxDelay` past copies.

    Prediction moves blocks of the covariance instead of multiplying extended matrices; the
    contract of `PredictWithDelay` is the extended product itself. Inversion is not modelled:
    the inverse of the innovation covariance is an input that must satisfy S * inverse = I. */
module KalmanFilter {
  import opened Wrappers
  import opened Matrices

  /** What the filter holds: `x` and `P` have maxDelay * dimX rows. */
  datatype Filter = Filter(dimX: nat, maxDelay: nat, x: Vec, P: Matrix) {
    function Dim(): nat { maxDelay * dimX }

    predicate Shaped() {
      maxDelay >= 1 && |x| == Dim() && P.rows == P.cols == Dim()
    }
  }

  datatype Event =
    | Prediction(xNext: Vec, A: Matrix, Q: Matrix)
    | Measurement(y: Vec, C: Matrix, R: Matrix, delay: nat, inverse: Option<Matrix>)

  // ----- initial state -----

  function Repeat(x: Vec, k: nat): Vec {
    if k == 0 then [] else Repeat(x, k - 1) + x
  }

  /** k copies of b along the diagonal, zero elsewhere. */
  function BlockDiag(b: Matrix, k: nat): (r: Matrix)
    requires b.rows == b.cols
    ensures r.rows == r.cols
  {
    if k == 0 then Zero(0, 0) else Diagonal(BlockDiag(b, k - 1), b)
  }

  /** [m 0; 0 b] */
  function Diagonal(m: Matrix, b: Matrix): (r: Matrix)
    requires m.rows == m.cols && b.rows == b.cols
    ensures r.rows == r.cols == m.rows + b.rows
  {
    Grid(m.rows + b.rows, m.rows + b.rows,
         seq(m.rows + b.rows, i requires 0 <= i < m.rows + b.rows => DiagonalRow(m, b, i)))
  }

  function DiagonalRow(m: Matrix, b: Matrix, i: nat): (r: Vec)
    requires m.rows == m.cols && b.rows == b.cols && i < m.rows + b.rows
    ensures |r| == m.rows + b.rows
  {
    if i < m.rows then m.data[i] + VZero(b.rows) else VZero(m.rows) + b.data[i - m.rows]
  }

  lemma DiagonalEntry(m: Matrix, b: Matrix, i: nat, j: nat)
    requires m.rows == m.cols && b.rows == b.cols && i < m.rows + b.rows && j < m.rows + b.rows
    ensures Diagonal(m, b).data[i][j] ==
            if i < m.rows && j < m.rows then m.data[i][j]
            else if i >= m.rows && j >= m.rows then b.data[i - m.rows][j - m.rows] else 0.0
  {
  }

  lemma {:induction false} BlockDiagSize(b: Matrix, k: nat)
    requires b.rows == b.cols
    ensures BlockDiag(b, k).rows == k * b.rows
  {
    hide Diagonal;
    if k > 0 {
      BlockDiagSize(b, k - 1);
      assert k * b.rows == (k - 1) * b.rows + b.rows;
    }
  }

  lemma {:induction false} RepeatLength(x: Vec, k: nat)
    ensures |Repeat(x, k)| == k * |x|
  {
    if k > 0 { RepeatLength(x, k - 1); }
  }

  // ----- prediction -----

  /** The delayed transition matrix [A 0 0; I 0 0; 0 I 0] of size d. */
  function ExtendedA(A: Matrix, d: nat): (r: Matrix)
    requires A.rows == A.cols <= d
    ensures r.rows == r.cols == d
  {
    Grid(d, d, seq(d, i requires 0 <= i < d => ExtendedRow(A, d, i)))
  }

  function ExtendedRow(A: Matrix, d: nat, i: nat): (r: Vec)
    requires A.rows == A.cols <= d && i < d
    ensures |r| == d
  {
    if i < A.rows then A.data[i] + VZero(d - A.rows) else VUnit(d, i - A.rows)
  }

  function ExtendedQ(Q: Matrix, d: nat): Matrix
    requires Q.rows == Q.cols <= d
  {
    SetBlock(Zero(d, d), 0, 0, Q)
  }

  function PredictedCovariance(P: Matrix, A: Matrix, Q: Matrix): (r: Matrix)
    requires P.rows == P.cols && A.rows == A.cols == Q.rows == Q.cols <= P.rows
    ensures r.rows == r.cols == P.rows
  {
    var a := ExtendedA(A, P.rows);
    Add(Mul(Mul(a, P), Transpose(a)), ExtendedQ(Q, P.rows))
  }

  // ----- measurement -----

  /** The measurement matrix that reads only the block `delay` steps back. */
  function ExtendedC(C: Matrix, delay: nat, d: nat): Matrix
    requires delay * C.cols + C.cols <= d
  {
    SetBlock(Zero(C.rows, d), 0, delay * C.cols, C)
  }

  /** The innovation covariance R + C * P * C'. */
  function Innovation(P: Matrix, C: Matrix, R: Matrix): Matrix
    requires P.rows == P.cols == C.cols && R.rows == R.cols == C.rows
  {
    Add(R, Mul(C, Mul(P, Transpose(C))))
  }

  ghost predicate IsInverse(S: Matrix, inverse: Option<Matrix>)
    requires S.rows == S.cols
  {
    match inverse
    case Some(t) => t.rows == t.cols == S.rows && Mul(S, t) == Identity(S.rows)
    case None => forall t: Matrix :: t.rows == t.cols == S.rows ==> Mul(S, t) != Identity(S.rows)
  }

  function Gain(P: Matrix, C: Matrix, t: Matrix): Matrix
    requires P.rows == P.cols == C.cols && t.rows == t.cols == C.rows
  {
    Mul(Mul(P, Transpose(C)), t)
  }

  function UpdatedCovariance(P: Matrix, C: Matrix, t: Matrix): Matrix
    requires P.rows == P.cols == C.cols && t.rows == t.cols == C.rows
  {
    Sub(P, Mul(Gain(P, C, t), Mul(C, P)))
  }

  function UpdatedState(x: Vec, P: Matrix, y: Vec, C: Matrix, t: Matrix): Vec
    requires |x| == P.rows == P.cols == C.cols && t.rows == t.cols == C.rows == |y|
  {
    VAdd(x, MulVec(Gain(P, C, t), VSub(y, MulVec(C, x))))
  }

  // ----- the transition system -----

  /** Eigen's shape assertions, and for a measurement that is not refused, a true inverse. */
  ghost predicate Fits(f: Filter, e: Event)
    requires f.Shaped()
  {
    match e
    case Prediction(xNext, A, Q) =>
      |xNext| == f.dimX && A.rows == A.cols == Q.rows == Q.cols == f.dimX
    case Measurement(y, C, R, delay, inverse) =>
      && C.rows == |y| && C.cols == f.dimX
      && (delay < f.maxDelay && R.rows == R.cols == C.rows ==>
            IsInverse(Innovation(f.P, DelayedC(f, C, delay), R), inverse))
  }

  function DelayedC(f: Filter, C: Matrix, delay: nat): (r: Matrix)
    requires f.Shaped() && delay < f.maxDelay && C.cols == f.dimX
    ensures r.rows == C.rows && r.cols == f.P.rows
  {
    BlockFits(f.dimX, delay, f.maxDelay);
    ExtendedC(C, delay, f.P.rows)
  }

  /** Whether the measurement is used: in the delay window, R of the right shape, finite gain. */
  predicate Accepted(f: Filter, e: Event)
    requires e.Measurement?
  {
    e.delay < f.maxDelay && e.R.rows == e.R.cols == e.C.rows && e.inverse.Some?
  }

  ghost function Step(f: Filter, e: Event): (r: Filter)
    requires f.Shaped() && Fits(f, e)
    ensures r.Shaped() && r.dimX == f.dimX && r.maxDelay == f.maxDelay
  {
    BlockFits(f.dimX, 0, f.maxDelay);
    match e
    case Prediction(xNext, A, Q) =>
      f.(x := xNext + f.x[..f.Dim() - f.dimX], P := PredictedCovariance(f.P, A, Q))
    case Measurement(y, C, R, delay, inverse) =>
      if Accepted(f, e) then
        var c := DelayedC(f, C, delay);
        f.(x := UpdatedState(f.x, f.P, y, c, inverse.value), P := UpdatedCovariance(f.P, c, inverse.value))
      else f
  }

  ghost predicate FitsAll(f: Filter, es: seq<Event>)
    requires f.Shaped()
    decreases |es|
  {
    es == [] || (Fits(f, es[0]) && FitsAll(Step(f, es[0]), es[1..]))
  }

  ghost function Run(f: Filter, es: seq<Event>): (r: Filter)
    requires f.Shaped() && FitsAll(f, es)
    ensures r.Shaped() && r.dimX == f.dimX && r.maxDelay == f.maxDelay
    decreases |es|
  {
    if es == [] then f else Run(Step(f, es[0]), es[1..])
  }

  ghost function Initial(x0: Vec, P0: Matrix, maxDelay: nat): (f: Filter)
    requires maxDelay >= 1 && P0.rows == P0.cols == |x0|
    ensures f.Shaped()
  {
    RepeatLength(x0, maxDelay);
    BlockDiagSize(P0, maxDelay);
    Filter(|x0|, maxDelay, Repeat(x0, maxDelay), BlockDiag(P0, maxDelay))
  }

  // ----- the covariance stays symmetric positive semidefinite -----

  lemma DiagonalQuad(m: Matrix, b: Matrix, v: Vec)
    requires m.rows == m.cols && b.rows == b.cols && |v| == m.rows + b.rows
    ensures Quad(Diagonal(m, b), v) == Quad(m, v[..m.rows]) + Quad(b, v[m.rows..])
  {
    var v1, v2, r := v[..m.rows], v[m.rows..], Diagonal(m, b);
    assert v == v1 + v2;
    forall i | 0 <= i < r.rows
      ensures MulVec(r, v)[i] == (MulVec(m, v1) + MulVec(b, v2))[i]
    {
      if i < m.rows {
        DotConcat(m.data[i], VZero(b.rows), v1, v2);
        DotZero(b.rows, v2);
      } else {
        DotConcat(VZero(m.rows), b.data[i - m.rows], v1, v2);
        DotZero(m.rows, v1);
      }
    }
    assert MulVec(r, v) == MulVec(m, v1) + MulVec(b, v2);
    DotConcat(v1, v2, MulVec(m, v1), MulVec(b, v2));
  }

  lemma DiagonalPSD(m: Matrix, b: Matrix)
    requires PSD(m) && PSD(b)
    ensures PSD(Diagonal(m, b))
  {
    hide Diagonal, Bil, Symmetric;
    DiagonalSymmetric(m, b);
    SquareShape(m);
    SquareShape(b);
    forall v: Vec | |v| == m.rows + b.rows ensures Quad(Diagonal(m, b), v) >= 0.0 {
      DiagonalQuad(m, b, v);
      assert Quad(m, v[..m.rows]) >= 0.0 && Quad(b, v[m.rows..]) >= 0.0;
    }
  }

  lemma SquareShape(m: Matrix)
    requires Symmetric(m)
    ensures m.rows == m.cols
  {
  }

  lemma DiagonalSymmetric(m: Matrix, b: Matrix)
    requires Symmetric(m) && Symmetric(b)
    ensures Symmetric(Diagonal(m, b))
  {
    hide Diagonal;
    var r := Diagonal(m, b);
    forall i, j | 0 <= i < r.rows && 0 <= j < r.rows ensures r.data[i][j] == r.data[j][i] {
      DiagonalEntry(m, b, i, j);
      DiagonalEntry(m, b, j, i);
    }
  }

  lemma {:induction false} BlockDiagPSD(b: Matrix, k: nat)
    requires PSD(b)
    ensures PSD(BlockDiag(b, k))
  {
    hide Nonnegative, Diagonal;
    if k == 0 {
      ZeroPSD(0);
    } else {
      BlockDiagPSD(b, k - 1);
      DiagonalPSD(BlockDiag(b, k - 1), b);
    }
  }

  lemma ExtendedQPSD(Q: Matrix, d: nat)
    requires PSD(Q) && Q.rows <= d
    ensures PSD(ExtendedQ(Q, d))
  {
    hide Nonnegative, Diagonal;
    var z := Zero(d - Q.rows, d - Q.rows);
    ZeroPSD(z.rows);
    DiagonalPSD(Q, z);
    forall i, j | 0 <= i < d && 0 <= j < d ensures ExtendedQ(Q, d).data[i][j] == Diagonal(Q, z).data[i][j] {
      DiagonalEntry(Q, z, i, j);
    }
    Extensional(ExtendedQ(Q, d), Diagonal(Q, z));
  }

  lemma InverseSymmetric(S: Matrix, t: Matrix)
    requires Symmetric(S) && t.rows == t.cols == S.rows && Mul(S, t) == Identity(S.rows)
    ensures Symmetric(t)
    ensures forall v: Vec :: |v| == S.rows ==> MulVec(S, MulVec(t, v)) == v
  {
    forall v: Vec | |v| == S.rows ensures MulVec(S, MulVec(t, v)) == v {
      MulVecMul(S, t, v);
      MulVecIdentity(S.rows, v);
    }
    forall u: Vec, v: Vec | |u| == |v| == t.rows ensures Bil(t, u, v) == Bil(t, v, u) {
      var a, b := MulVec(t, u), MulVec(t, v);
      SymmetricSwaps(S, a, b);
      DotComm(a, v);
    }
    SymmetricFromSwaps(t);
  }

  lemma InnovationBil(P: Matrix, C: Matrix, R: Matrix, a: Vec, b: Vec)
    requires P.rows == P.cols == C.cols && R.rows == R.cols == C.rows == |a| == |b|
    ensures Bil(Innovation(P, C, R), a, b) ==
         Bil(R, a, b) + Bil(P, MulVec(Transpose(C), a), MulVec(Transpose(C), b))
  {
    var PCT := Mul(P, Transpose(C));
    BilSum(R, Mul(C, PCT), a, b);
    MulVecMul(C, PCT, b);
    MulVecMul(P, Transpose(C), b);
    Adjoint(C, a, MulVec(PCT, b));
  }

  lemma InnovationSymmetric(P: Matrix, C: Matrix, R: Matrix)
    requires Symmetric(P) && Symmetric(R) && P.rows == C.cols && R.rows == C.rows
    ensures Symmetric(Innovation(P, C, R))
  {
    forall a: Vec, b: Vec | |a| == |b| == C.rows
      ensures Bil(Innovation(P, C, R), a, b) == Bil(Innovation(P, C, R), b, a)
    {
      InnovationBil(P, C, R, a, b);
      InnovationBil(P, C, R, b, a);
      SymmetricSwaps(R, a, b);
      SymmetricSwaps(P, MulVec(Transpose(C), a), MulVec(Transpose(C), b));
    }
    SymmetricFromSwaps(Innovation(P, C, R));
  }

  ghost predicate Invertible(P: Matrix, C: Matrix, R: Matrix, t: Matrix) {
    && Symmetric(P) && Symmetric(R) && P.rows == C.cols && R.rows == C.rows
    && t.rows == t.cols == C.rows && Mul(Innovation(P, C, R), t) == Identity(C.rows)
  }

  /** With a = K'u and b = K'v:  a' S b == u' P C' b. */
  lemma GainInnovation(P: Matrix, C: Matrix, R: Matrix, t: Matrix, u: Vec, b: Vec)
    requires Invertible(P, C, R, t) && |u| == P.rows && |b| == C.rows
    ensures var K := Gain(P, C, t);
            Bil(Innovation(P, C, R), MulVec(Transpose(K), u), b) == Bil(P, u, MulVec(Transpose(C), b))
  {
    var S, K, PCT := Innovation(P, C, R), Gain(P, C, t), Mul(P, Transpose(C));
    var Sb := MulVec(S, b);
    InnovationSymmetric(P, C, R);
    InverseSymmetric(S, t);
    Adjoint(K, u, Sb);
    MulVecMul(PCT, t, Sb);
    // t * S acts as the identity under any dot product, so PCT' u may be moved across it.
    var z := MulVec(Transpose(PCT), u);
    Adjoint(PCT, u, MulVec(t, Sb));
    Adjoint(PCT, u, b);
    SymmetricSwaps(t, z, Sb);
    SymmetricSwaps(S, MulVec(t, z), b);
    MulVecMul(P, Transpose(C), b);
    assert Dot(z, MulVec(t, Sb)) == Dot(MulVec(t, z), Sb) == Dot(z, b);
  }

  /** Bilinear form of the updated covariance, with a = K'u. */
  lemma UpdatedBil(P: Matrix, C: Matrix, t: Matrix, u: Vec, v: Vec)
    requires P.rows == P.cols == C.cols && t.rows == t.cols == C.rows && |u| == |v| == P.rows
    ensures Bil(UpdatedCovariance(P, C, t), u, v) ==
         Bil(P, u, v) - Bil(P, MulVec(Transpose(C), MulVec(Transpose(Gain(P, C, t)), u)), v)
  {
    var K := Gain(P, C, t);
    var a := MulVec(Transpose(K), u);
    BilSum(P, Mul(K, Mul(C, P)), u, v);
    MulVecMul(K, Mul(C, P), v);
    MulVecMul(C, P, v);
    Adjoint(K, u, MulVec(Mul(C, P), v));
    Adjoint(C, a, MulVec(P, v));
  }

  function JosephForm(P: Matrix, C: Matrix, R: Matrix, K: Matrix): Matrix
    requires P.rows == P.cols == C.cols == K.rows && R.rows == R.cols == C.rows == K.cols
  {
    var L := Sub(Identity(P.rows), Mul(K, C));
    Add(Mul(Mul(L, P), Transpose(L)), Mul(Mul(K, R), Transpose(K)))
  }

  lemma TransposedFactor(C: Matrix, K: Matrix, u: Vec)
    requires C.cols == K.rows == |u| && K.cols == C.rows
    ensures var L := Sub(Identity(C.cols), Mul(K, C));
            MulVec(Transpose(L), u) == VSub(u, MulVec(Transpose(C), MulVec(Transpose(K), u)))
  {
    var n, KC := C.cols, Mul(K, C);
    var L := Sub(Identity(n), KC);
    var r := VSub(u, MulVec(Transpose(C), MulVec(Transpose(K), u)));
    forall j | 0 <= j < n ensures MulVec(Transpose(L), u)[j] == r[j] {
      var e := VUnit(n, j);
      DotUnit(n, j, MulVec(Transpose(L), u));
      DotUnit(n, j, r);
      Adjoint(L, u, e);
      MulVecSum(Identity(n), KC, e);
      MulVecIdentity(n, e);
      DotSub(e, MulVec(KC, e), u);
      MulVecMul(K, C, e);
      Adjoint(K, u, MulVec(C, e));
      Adjoint(C, MulVec(Transpose(K), u), e);
      DotSub(u, MulVec(Transpose(C), MulVec(Transpose(K), u)), e);
      DotComm(u, e);
    }
  }

  lemma JosephBil(P: Matrix, C: Matrix, R: Matrix, t: Matrix, u: Vec, v: Vec)
    requires Invertible(P, C, R, t) && |u| == |v| == P.rows
    ensures Bil(UpdatedCovariance(P, C, t), u, v) == Bil(JosephForm(P, C, R, Gain(P, C, t)), u, v)
  {
    var K := Gain(P, C, t);
    var L := Sub(Identity(P.rows), Mul(K, C));
    var a, b := MulVec(Transpose(K), u), MulVec(Transpose(K), v);
    var p, q := MulVec(Transpose(C), a), MulVec(Transpose(C), b);
    UpdatedBil(P, C, t, u, v);
    BilSum(Mul(Mul(L, P), Transpose(L)), Mul(Mul(K, R), Transpose(K)), u, v);
    BilCongruence(L, P, L, u, v);
    BilCongruence(K, R, K, u, v);
    TransposedFactor(C, K, u);
    TransposedFactor(C, K, v);
    BilOfDifferences(P, u, p, v, q);
    InnovationBil(P, C, R, a, b);
    GainInnovation(P, C, R, t, u, b);
  }

  lemma BilOfDifferences(P: Matrix, u: Vec, p: Vec, v: Vec, q: Vec)
    requires P.rows == P.cols == |u| == |p| == |v| == |q|
    ensures Bil(P, VSub(u, p), VSub(v, q)) == Bil(P, u, v) - Bil(P, u, q) - Bil(P, p, v) + Bil(P, p, q)
  {
    MulVecLinear(P, v, q);
    DotSub(u, p, MulVec(P, VSub(v, q)));
    DotSub(MulVec(P, v), MulVec(P, q), u);
    DotSub(MulVec(P, v), MulVec(P, q), p);
  }

  /** P - K (C P) is the Joseph form (I - K C) P (I - K C)' + K R K'. */
  lemma UpdateIsJosephForm(P: Matrix, C: Matrix, R: Matrix, t: Matrix)
    requires Invertible(P, C, R, t)
    ensures UpdatedCovariance(P, C, t) == JosephForm(P, C, R, Gain(P, C, t))
  {
    var n := P.rows;
    var U, J := UpdatedCovariance(P, C, t), JosephForm(P, C, R, Gain(P, C, t));
    forall i, j | 0 <= i < n && 0 <= j < n ensures U.data[i][j] == J.data[i][j] {
      JosephBil(P, C, R, t, VUnit(n, i), VUnit(n, j));
      BilEntry(U, i, j);
      BilEntry(J, i, j);
    }
    Extensional(U, J);
  }

  lemma UpdatePSD(P: Matrix, C: Matrix, R: Matrix, t: Matrix)
    requires Invertible(P, C, R, t) && PSD(P) && PSD(R)
    ensures PSD(UpdatedCovariance(P, C, t))
  {
    hide Nonnegative;
    var K := Gain(P, C, t);
    var L := Sub(Identity(P.rows), Mul(K, C));
    var KRK, Z := Mul(Mul(K, R), Transpose(K)), Zero(P.rows, P.rows);
    UpdateIsJosephForm(P, C, R, t);
    ZeroPSD(P.rows);
    CongruencePSD(K, R, Z);
    Extensional(Add(KRK, Z), KRK);
    CongruencePSD(L, P, KRK);
  }

  lemma ZeroPSD(n: nat)
    ensures PSD(Zero(n, n))
  {
    forall v: Vec | |v| == n ensures Quad(Zero(n, n), v) >= 0.0 {
      forall i | 0 <= i < n ensures MulVec(Zero(n, n), v)[i] == 0.0 { DotZero(n, v); }
      assert MulVec(Zero(n, n), v) == VZero(n);
      DotZero(n, v);
    }
  }

  /** No measurement increases the variance in any direction. */
  lemma UpdateNeverIncreasesVariance(P: Matrix, C: Matrix, R: Matrix, t: Matrix, v: Vec)
    requires Invertible(P, C, R, t) && PSD(P) && PSD(R) && |v| == P.rows
    ensures Quad(UpdatedCovariance(P, C, t), v) <= Quad(P, v)
  {
    var a := MulVec(Transpose(Gain(P, C, t)), v);
    var p := MulVec(Transpose(C), a);
    UpdatedBil(P, C, t, v, v);
    SymmetricSwaps(P, p, v);
    GainInnovation(P, C, R, t, v, a);
    InnovationBil(P, C, R, a, a);
    assert Quad(R, a) >= 0.0 && Quad(P, p) >= 0.0;
  }

  /** The variance along v after an update with any gain K, with a = K'v. */
  lemma JosephQuad(P: Matrix, C: Matrix, R: Matrix, K: Matrix, v: Vec)
    requires Symmetric(P) && P.rows == C.cols == K.rows == |v| && R.rows == R.cols == C.rows == K.cols
    ensures
      var a := MulVec(Transpose(K), v);
      Quad(JosephForm(P, C, R, K), v) ==
      Quad(P, v) - 2.0 * Bil(P, v, MulVec(Transpose(C), a)) + Bil(Innovation(P, C, R), a, a)
  {
    var L := Sub(Identity(P.rows), Mul(K, C));
    var a := MulVec(Transpose(K), v);
    var p := MulVec(Transpose(C), a);
    BilSum(Mul(Mul(L, P), Transpose(L)), Mul(Mul(K, R), Transpose(K)), v, v);
    BilCongruence(L, P, L, v, v);
    BilCongruence(K, R, K, v, v);
    TransposedFactor(C, K, v);
    BilOfDifferences(P, v, p, v, p);
    SymmetricSwaps(P, p, v);
    InnovationBil(P, C, R, a, a);
  }

  /** The computed gain is optimal: no other gain leaves less variance in any direction. */
  lemma GainIsOptimal(P: Matrix, C: Matrix, R: Matrix, t: Matrix, K2: Matrix, v: Vec)
    requires Invertible(P, C, R, t) && PSD(P) && PSD(R)
    requires K2.rows == P.rows == |v| && K2.cols == C.rows
    ensures Quad(UpdatedCovariance(P, C, t), v) <= Quad(JosephForm(P, C, R, K2), v)
  {
    var S := Innovation(P, C, R);
    var a, b := MulVec(Transpose(Gain(P, C, t)), v), MulVec(Transpose(K2), v);
    UpdateIsJosephForm(P, C, R, t);
    JosephQuad(P, C, R, Gain(P, C, t), v);
    JosephQuad(P, C, R, K2, v);
    GainInnovation(P, C, R, t, v, a);
    GainInnovation(P, C, R, t, v, b);
    InnovationSymmetric(P, C, R);
    SymmetricSwaps(S, a, b);
    BilOfDifferences(S, b, a, b, a);
    var d := VSub(b, a);
    InnovationBil(P, C, R, d, d);
    assert Quad(R, d) >= 0.0 && Quad(P, MulVec(Transpose(C), d)) >= 0.0;
  }

  /** Noise covariances are positive semidefinite. */
  ghost predicate ProperNoise(e: Event) {
    match e
    case Prediction(_, _, Q) => PSD(Q)
    case Measurement(_, _, R, _, _) => PSD(R)
  }

  lemma StepKeepsPSD(f: Filter, e: Event)
    requires f.Shaped() && Fits(f, e) && ProperNoise(e) && PSD(f.P)
    ensures PSD(Step(f, e).P)
    ensures e.Measurement? ==> forall v: Vec :: |v| == f.P.rows ==> Quad(Step(f, e).P, v) <= Quad(f.P, v)
  {
    hide Nonnegative;
    match e
    case Prediction(xNext, A, Q) =>
      BlockFits(f.dimX, 0, f.maxDelay);
      ExtendedQPSD(Q, f.P.rows);
      CongruencePSD(ExtendedA(A, f.P.rows), f.P, ExtendedQ(Q, f.P.rows));
    case Measurement(y, C, R, delay, inverse) =>
      if Accepted(f, e) {
        var c := DelayedC(f, C, delay);
        UpdatePSD(f.P, c, R, inverse.value);
        forall v: Vec | |v| == f.P.rows ensures Quad(Step(f, e).P, v) <= Quad(f.P, v) {
          UpdateNeverIncreasesVariance(f.P, c, R, inverse.value, v);
        }
      }
  }

  lemma {:induction false} RunKeepsPSD(f: Filter, es: seq<Event>)
    requires f.Shaped() && FitsAll(f, es) && PSD(f.P)
    requires forall e :: e in es ==> ProperNoise(e)
    ensures PSD(Run(f, es).P)
    decreases |es|
  {
    hide Nonnegative;
    if es != [] {
      StepKeepsPSD(f, es[0]);
      RunKeepsPSD(Step(f, es[0]), es[1..]);
    }
  }

  /** In every state reachable from `Init`, the whole extended covariance is symmetric positive
      semidefinite. */
  lemma ReachableCovariancePSD(x0: Vec, P0: Matrix, maxDelay: nat, es: seq<Event>)
    requires maxDelay >= 1 && P0.rows == P0.cols == |x0| && PSD(P0)
    requires FitsAll(Initial(x0, P0, maxDelay), es)
    requires forall e :: e in es ==> ProperNoise(e)
    ensures PSD(Run(Initial(x0, P0, maxDelay), es).P)
  {
    BlockDiagPSD(P0, maxDelay);
    RunKeepsPSD(Initial(x0, P0, maxDelay), es);
  }

  // ----- the state is a history -----

  /** The state `j` steps back. */
  function Past(f: Filter, j: nat): (r: Vec)
    requires f.Shaped() && j < f.maxDelay
    ensures |r| == f.dimX
  {
    BlockFits(f.dimX, j, f.maxDelay);
    f.x[j * f.dimX..j * f.dimX + f.dimX]
  }

  lemma PredictionShiftsHistory(f: Filter, e: Event, j: nat)
    requires f.Shaped() && Fits(f, e) && e.Prediction? && j < f.maxDelay
    ensures Past(Step(f, e), j) == if j == 0 then e.xNext else Past(f, j - 1)
  {
    hide PredictedCovariance, BlockDiag;
    var n := f.dimX;
    BlockFits(n, 0, f.maxDelay);
    BlockFits(n, j, f.maxDelay);
    if j > 0 { BlockFits(n, j - 1, f.maxDelay); }
    ShiftedSlice(e.xNext, f.x, f.Dim() - n, j * n, n);
  }

  lemma ShiftedSlice(a: Vec, x: Vec, m: nat, from: nat, n: nat)
    requires |a| == n && m <= |x| && from <= m && (from == 0 || from >= n)
    ensures (a + x[..m])[from..from + n] == if from == 0 then a else x[from - n..from]
  {
  }

  /** After predictions only, block j holds the state supplied j predictions ago, or an initial one. */
  lemma {:induction false} PredictionsKeepHistory(f: Filter, es: seq<Event>, j: nat)
    requires f.Shaped() && FitsAll(f, es) && j < f.maxDelay
    requires forall e :: e in es ==> e.Prediction?
    ensures Past(Run(f, es), j) == if j < |es| then es[|es| - 1 - j].xNext else Past(f, j - |es|)
    decreases |es|
  {
    hide Past, Fits;
    if es != [] {
      PredictionsKeepHistory(Step(f, es[0]), es[1..], j);
      if j >= |es| - 1 {
        PredictionShiftsHistory(f, es[0], j - (|es| - 1));
      }
    }
  }

  lemma RepeatStep(x: Vec, k: nat)
    requires k > 0
    ensures Repeat(x, k) == Repeat(x, k - 1) + x
  {
  }

  lemma {:induction false} RepeatBlock(x: Vec, k: nat, j: nat)
    requires j < k
    ensures 0 <= j * |x| && j * |x| + |x| <= |Repeat(x, k)|
    ensures Repeat(x, k)[j * |x|..j * |x| + |x|] == x
  {
    hide Repeat;
    var n := |x|;
    RepeatStep(x, k);
    RepeatLength(x, k);
    RepeatLength(x, k - 1);
    BlockFits(n, j, k);
    if j < k - 1 {
      RepeatBlock(x, k - 1, j);
      SliceBefore(Repeat(x, k - 1), x, j * n, n);
    } else {
      SliceEnd(Repeat(x, k - 1), x);
    }
  }

  lemma SliceEnd(a: Vec, b: Vec)
    ensures (a + b)[|a|..|a| + |b|] == b
  {
  }

  lemma SliceBefore(a: Vec, b: Vec, from: nat, n: nat)
    requires from + n <= |a|
    ensures (a + b)[from..from + n] == a[from..from + n]
  {
  }

  lemma InitialHistory(x0: Vec, P0: Matrix, k: nat, j: nat)
    requires j < k && P0.rows == P0.cols == |x0|
    ensures Past(Initial(x0, P0, k), j) == x0
  {
    hide Repeat, BlockDiag;
    RepeatBlock(x0, k, j);
  }

  /** A measurement `delay` steps old is compared with the state supplied that many predictions ago. */
  lemma DelayedMeasurementReadsPast(f: Filter, C: Matrix, delay: nat)
    requires f.Shaped() && delay < f.maxDelay && C.cols == f.dimX
    ensures MulVec(DelayedC(f, C, delay), f.x) == MulVec(C, Past(f, delay))
  {
    BlockFits(f.dimX, delay, f.maxDelay);
    var lo := delay * f.dimX;
    ExtendedRowsRead(C, lo, f.x);
    calc {
      MulVec(DelayedC(f, C, delay), f.x);
      MulVec(SetBlock(Zero(C.rows, |f.x|), 0, lo, C), f.x);
      MulVec(C, f.x[lo..lo + C.cols]);
      MulVec(C, Past(f, delay));
    }
  }

  // ----- block shifting computes the extended product -----

  /** Rows of ExtendedA * P: A times the first block row, then P's rows moved down. */
  lemma ShiftedRows(A: Matrix, P: Matrix, i: nat, j: nat)
    requires P.rows == P.cols && A.rows == A.cols <= P.rows && i < P.rows && j < P.cols
    ensures Mul(ExtendedA(A, P.rows), P).data[i][j] ==
         if i < A.rows then Dot(A.data[i], Col(P, j)[..A.rows]) else P.data[i - A.rows][j]
  {
    var n, d, c := A.rows, P.rows, Col(P, j);
    if i < n {
      assert c == c[..n] + c[n..];
      DotConcat(A.data[i], VZero(d - n), c[..n], c[n..]);
      DotZero(d - n, c[n..]);
    } else {
      DotUnit(d, i - n, c);
    }
  }

  /** Columns of X * ExtendedA'. */
  lemma ShiftedColumns(A: Matrix, X: Matrix, i: nat, j: nat)
    requires A.rows == A.cols <= X.cols && i < X.rows && j < X.cols
    ensures Mul(X, Transpose(ExtendedA(A, X.cols))).data[i][j] ==
         if j < A.rows then Dot(X.data[i][..A.rows], A.data[j]) else X.data[i][j - A.rows]
  {
    var n, d, x := A.rows, X.cols, X.data[i];
    var a := ExtendedA(A, d);
    assert Col(Transpose(a), j) == a.data[j];
    if j < n {
      assert x == x[..n] + x[n..];
      DotConcat(x[..n], x[n..], A.data[j], VZero(d - n));
      DotZero(d - n, x[n..]);
    } else {
      DotUnit(d, j - n, x);
      DotComm(x, VUnit(d, j - n));
    }
  }

  /** Entry (i, j) of A * B' is the product of row i of A and row j of B. */
  lemma MulTransposeEntry(X: Matrix, B: Matrix, i: nat, j: nat)
    requires X.cols == B.cols && i < X.rows && j < B.rows
    ensures Mul(X, Transpose(B)).data[i][j] == Dot(X.data[i], B.data[j])
  {
    assert Col(Transpose(B), j) == B.data[j];
  }

  lemma PredictedEntry(P: Matrix, A: Matrix, Q: Matrix, i: nat, j: nat)
    requires P.rows == P.cols && A.rows == A.cols == Q.rows == Q.cols <= P.rows && i < P.rows && j < P.rows
    ensures var n, d := A.rows, P.rows - A.rows;
            PredictedCovariance(P, A, Q).data[i][j] ==
            if i < n && j < n then
              Add(Mul(Mul(A, Block(P, 0, 0, n, n)), Transpose(A)), Q).data[i][j]
            else if i < n then
              Mul(A, Block(P, 0, 0, n, d)).data[i][j - n]
            else if j < n then
              Mul(Block(P, 0, 0, d, n), Transpose(A)).data[i - n][j]
            else
              Block(P, 0, 0, d, d).data[i - n][j - n]
  {
    hide Dot, ExtendedA;
    var n, d := A.rows, P.rows - A.rows;
    var X := Mul(ExtendedA(A, P.rows), P);
    ShiftedColumns(A, X, i, j);
    if j < n {
      if i < n { TopLeft(P, A, i, j); } else { BottomLeft(P, A, i, j); }
    } else {
      ShiftedRows(A, P, i, j - n);
      if i < n {
        assert Col(Block(P, 0, 0, n, d), j - n) == Col(P, j - n)[..n];
      }
    }
  }

  lemma TopLeft(P: Matrix, A: Matrix, i: nat, j: nat)
    requires P.rows == P.cols && A.rows == A.cols <= P.rows && i < A.rows && j < A.rows
    ensures Dot(Mul(ExtendedA(A, P.rows), P).data[i][..A.rows], A.data[j]) ==
         Mul(Mul(A, Block(P, 0, 0, A.rows, A.rows)), Transpose(A)).data[i][j]
  {
    var n := A.rows;
    var X, B := Mul(ExtendedA(A, P.rows), P), Block(P, 0, 0, n, n);
    forall k | 0 <= k < n ensures X.data[i][..n][k] == Mul(A, B).data[i][k] {
      ShiftedRows(A, P, i, k);
      assert Col(B, k) == Col(P, k)[..n];
    }
    assert X.data[i][..n] == Mul(A, B).data[i];
    MulTransposeEntry(Mul(A, B), A, i, j);
  }

  lemma BottomLeft(P: Matrix, A: Matrix, i: nat, j: nat)
    requires P.rows == P.cols && A.rows == A.cols <= i < P.rows && j < A.rows
    ensures Dot(Mul(ExtendedA(A, P.rows), P).data[i][..A.rows], A.data[j]) ==
         Mul(Block(P, 0, 0, P.rows - A.rows, A.rows), Transpose(A)).data[i - A.rows][j]
  {
    var n := A.rows;
    var X, B := Mul(ExtendedA(A, P.rows), P), Block(P, 0, 0, P.rows - n, n);
    forall k | 0 <= k < n ensures X.data[i][..n][k] == B.data[i - n][k] {
      ShiftedRows(A, P, i, k);
    }
    assert X.data[i][..n] == B.data[i - n];
    MulTransposeEntry(B, A, i - n, j);
  }

  lemma FourBlocksEqual(z: Matrix, a: Matrix, b: Matrix, c: Matrix, e: Matrix, g: Matrix)
    requires z.rows == z.cols == g.rows == g.cols && a.rows == a.cols == b.rows == c.cols
    requires b.cols == c.rows == e.rows == e.cols && a.rows + e.rows == z.rows
    requires forall i, j :: 0 <= i < z.rows && 0 <= j < z.rows ==>
      (g.data[i][j] ==
        if i < a.rows && j < a.rows then a.data[i][j]
        else if i < a.rows then b.data[i][j - a.rows]
        else if j < a.rows then c.data[i - a.rows][j]
        else e.data[i - a.rows][j - a.rows])
    ensures SetBlock(SetBlock(SetBlock(SetBlock(z, 0, 0, a), 0, a.rows, b), a.rows, 0, c), a.rows, a.rows, e) == g
  {
    hide SetBlock;
    var n := a.rows;
    var z1 := SetBlock(z, 0, 0, a);
    var z2 := SetBlock(z1, 0, n, b);
    var z3 := SetBlock(z2, n, 0, c);
    var z4 := SetBlock(z3, n, n, e);
    forall i, j | 0 <= i < z.rows && 0 <= j < z.rows ensures z4.data[i][j] == g.data[i][j] {
      SetBlockEntry(z, 0, 0, a, i, j);
      SetBlockEntry(z1, 0, n, b, i, j);
      SetBlockEntry(z2, n, 0, c, i, j);
      SetBlockEntry(z3, n, n, e, i, j);
    }
    Extensional(z4, g);
  }

  /** The four assigned blocks make up ExtendedA * P * ExtendedA' + ExtendedQ. */
  lemma BlocksArePrediction(P: Matrix, A: Matrix, Q: Matrix)
    requires P.rows == P.cols && A.rows == A.cols == Q.rows == Q.cols <= P.rows
    ensures var n, d := A.rows, P.rows - A.rows;
            SetBlock(SetBlock(SetBlock(SetBlock(Zero(P.rows, P.rows),
              0, 0, Add(Mul(Mul(A, Block(P, 0, 0, n, n)), Transpose(A)), Q)),
              0, n, Mul(A, Block(P, 0, 0, n, d))),
              n, 0, Mul(Block(P, 0, 0, d, n), Transpose(A))),
              n, n, Block(P, 0, 0, d, d)) == PredictedCovariance(P, A, Q)
  {
    hide Mul, Add, Transpose, Block, SetBlock, PredictedCovariance;
    var n, d := A.rows, P.rows - A.rows;
    var a := Add(Mul(Mul(A, Block(P, 0, 0, n, n)), Transpose(A)), Q);
    var b, c, e := Mul(A, Block(P, 0, 0, n, d)), Mul(Block(P, 0, 0, d, n), Transpose(A)), Block(P, 0, 0, d, d);
    forall i, j | 0 <= i < P.rows && 0 <= j < P.rows
      ensures PredictedCovariance(P, A, Q).data[i][j] ==
              if i < n && j < n then a.data[i][j]
              else if i < n then b.data[i][j - n]
              else if j < n then c.data[i - n][j]
              else e.data[i - n][j - n]
    {
      PredictedEntry(P, A, Q, i, j);
    }
    FourBlocksEqual(Zero(P.rows, P.rows), a, b, c, e, PredictedCovariance(P, A, Q));
  }

  /** p is f at the top left and zero elsewhere. */
  ghost predicate Padded(p: Matrix, f: Matrix) {
    f.rows == f.cols <= p.rows == p.cols &&
    forall r, c :: 0 <= r < p.rows && 0 <= c < p.rows ==>
      p.data[r][c] == if r < f.rows && c < f.rows then f.data[r][c] else 0.0
  }

  lemma PadNext(p: Matrix, f: Matrix, b: Matrix)
    requires b.rows == b.cols && Padded(p, f) && f.rows + b.rows <= p.rows
    ensures Padded(SetBlock(p, f.rows, f.rows, b), Diagonal(f, b))
  {
    hide SetBlock, Diagonal;
    var q := SetBlock(p, f.rows, f.rows, b);
    forall r, c | 0 <= r < q.rows && 0 <= c < q.rows
      ensures q.data[r][c] == if r < f.rows + b.rows && c < f.rows + b.rows then Diagonal(f, b).data[r][c] else 0.0
    {
      SetBlockEntry(p, f.rows, f.rows, b, r, c);
      if r < f.rows + b.rows && c < f.rows + b.rows { DiagonalEntry(f, b, r, c); }
    }
  }

  lemma PadEnds(p: Matrix, f: Matrix)
    requires f.rows == f.cols && p.rows == p.cols
    ensures f.rows == 0 && p == Zero(p.rows, p.rows) ==> Padded(p, f)
    ensures Padded(p, f) && p.rows == f.rows ==> p == f
  {
    if Padded(p, f) && p.rows == f.rows { Extensional(p, f); }
  }

  lemma RepeatNext(xs: Vec, x: Vec, i: nat)
    requires Repeat(x, i) <= xs && |Repeat(x, i)| + |x| <= |xs|
    ensures var n := |Repeat(x, i)|;
            Repeat(x, i + 1) <= xs[..n] + x + xs[n + |x|..] && |Repeat(x, i + 1)| == n + |x|
  {
  }

  lemma BlockDiagNext(b: Matrix, k: nat)
    requires b.rows == b.cols
    ensures BlockDiag(b, k + 1) == Diagonal(BlockDiag(b, k), b)
  {
  }

  // ----- what a measurement does to the state -----

  /** The update solves the normal equations: with the weights w = inverse * (y - C x) the state moves
      by P C' w, and what it leaves of the measurement is R w. */
  lemma UpdateSolvesNormalEquations(x: Vec, P: Matrix, y: Vec, C: Matrix, R: Matrix, t: Matrix)
    requires |x| == P.rows == P.cols == C.cols && R.rows == R.cols == C.rows == |y|
    requires t.rows == t.cols == C.rows && Mul(Innovation(P, C, R), t) == Identity(C.rows)
    ensures var w, after := MulVec(t, VSub(y, MulVec(C, x))), UpdatedState(x, P, y, C, t);
            after == VAdd(x, MulVec(P, MulVec(Transpose(C), w))) &&
            VSub(y, MulVec(C, after)) == MulVec(R, w)
  {
    hide MulVec, Mul, Transpose, Identity;
    var e := VSub(y, MulVec(C, x));
    var w := MulVec(t, e);
    var PCT := Mul(P, Transpose(C));
    MulVecMul(PCT, t, e);
    MulVecMul(P, Transpose(C), w);
    var step := MulVec(PCT, w);
    MulVecMul(Innovation(P, C, R), t, e);
    MulVecIdentity(C.rows, e);
    MulVecSum(R, Mul(C, PCT), w);
    MulVecMul(C, PCT, w);
    MulVecLinear(C, x, step);
    LeftOver(y, MulVec(C, x), MulVec(C, step), MulVec(R, w));
  }

  lemma LeftOver(y: Vec, p: Vec, q: Vec, r: Vec)
    requires |y| == |p| == |q| == |r| && VAdd(r, q) == VSub(y, p)
    ensures VSub(y, VAdd(p, q)) == r
  {
    forall i | 0 <= i < |y| ensures VSub(y, VAdd(p, q))[i] == r[i] { assert VAdd(r, q)[i] == VSub(y, p)[i]; }
  }

  /** A delayed measurement that is used leaves R w of itself when compared with the state supplied
      that many predictions ago. */
  lemma DelayedUpdateCorrects(f: Filter, e: Event)
    requires f.Shaped() && Fits(f, e) && e.Measurement? && Accepted(f, e)
    ensures var w := MulVec(e.inverse.value, VSub(e.y, MulVec(e.C, Past(f, e.delay))));
            VSub(e.y, MulVec(e.C, Past(Step(f, e), e.delay))) == MulVec(e.R, w)
  {
    hide MulVec, Mul, Past, Identity;
    var c := DelayedC(f, e.C, e.delay);
    DelayedMeasurementReadsPast(f, e.C, e.delay);
    UpdateSolvesNormalEquations(f.x, f.P, e.y, c, e.R, e.inverse.value);
    DelayedMeasurementReadsPast(Step(f, e), e.C, e.delay);
    assert DelayedC(Step(f, e), e.C, e.delay) == c;
  }

  // ----- what a prediction does to the covariance -----

  /** The extended transition applies A to the newest block and moves the others back. */
  lemma ExtendedAShifts(A: Matrix, d: nat, x: Vec)
    requires A.rows == A.cols <= d == |x|
    ensures MulVec(ExtendedA(A, d), x) == MulVec(A, x[..A.rows]) + x[..d - A.rows]
  {
    var n := A.rows;
    assert x == x[..n] + x[n..];
    forall i | 0 <= i < d ensures MulVec(ExtendedA(A, d), x)[i] == (MulVec(A, x[..n]) + x[..d - n])[i] {
      if i < n {
        DotConcat(A.data[i], VZero(d - n), x[..n], x[n..]);
        DotZero(d - n, x[n..]);
      } else {
        DotUnit(d, i - n, x);
      }
    }
  }

  /** The variance of any combination after a prediction: that of the combination before the
      transition, and the noise of its newest block. */
  lemma PredictedVariance(P: Matrix, A: Matrix, Q: Matrix, u: Vec, v: Vec)
    requires P.rows == P.cols == |u| == |v| && A.rows == A.cols == Q.rows == Q.cols <= P.rows
    ensures var a := Transpose(ExtendedA(A, P.rows));
            Bil(PredictedCovariance(P, A, Q), u, v) ==
            Bil(P, MulVec(a, u), MulVec(a, v)) + Bil(Q, u[..Q.rows], v[..Q.rows])
  {
    hide Bil, Mul, MulVec, Transpose, ExtendedA;
    var a := ExtendedA(A, P.rows);
    BilSum(Mul(Mul(a, P), Transpose(a)), ExtendedQ(Q, P.rows), u, v);
    BilCongruence(a, P, a, u, v);
    PaddedBil(Q, 0, 0, u, v);
  }

  lemma BasePredictedVariance(f: Filter, xNext: Vec, A: Matrix, Q: Matrix, u: Vec, v: Vec)
    requires f.Shaped() && BaseAccepts(f, xNext, A, Q) && |u| == |v| == A.rows
    ensures var n := BasePrediction(f, xNext, A, Q);
            n.x == xNext &&
            Bil(n.P, u, v) == Bil(f.P, MulVec(Transpose(A), u), MulVec(Transpose(A), v)) + Bil(Q, u, v)
  {
    hide Bil, Mul, MulVec, Transpose;
    BilSum(Mul(Mul(A, f.P), Transpose(A)), Q, u, v);
    BilCongruence(A, f.P, A, u, v);
  }

  /** Entries of the initial covariance: that of the initial state inside a block, zero across. */
  lemma {:induction false} BlockDiagEntry(b: Matrix, k: nat, i: nat, j: nat)
    requires b.rows == b.cols && i < k * b.rows && j < k * b.rows
    ensures BlockDiag(b, k).rows == k * b.rows && b.rows > 0
    ensures BlockDiag(b, k).data[i][j] == if i / b.rows == j / b.rows then b.data[i % b.rows][j % b.rows] else 0.0
  {
    hide Diagonal;
    var n := b.rows;
    BlockDiagSize(b, k);
    BlockDiagSize(b, k - 1);
    BlockFits(n, k - 1, k);
    DiagonalEntry(BlockDiag(b, k - 1), b, i, j);
    BlockIndex(i, n, k);
    BlockIndex(j, n, k);
    if i < (k - 1) * n && j < (k - 1) * n { BlockDiagEntry(b, k - 1, i, j); }
  }

  lemma BlockIndex(i: nat, n: nat, k: nat)
    requires n > 0 && k > 0 && i < k * n
    ensures i < (k - 1) * n ==> i / n < k - 1
    ensures i >= (k - 1) * n ==> i / n == k - 1 && i % n == i - (k - 1) * n
  {
    var q, r := i / n, i % n;
    assert i == q * n + r;
    assert k * n == (k - 1) * n + n;
    if q >= k { MulMonotone(k, q, n); }
    if q <= k - 2 { MulMonotone(q + 1, k - 1, n); }
    if q >= k - 1 { MulMonotone(k - 1, q, n); }
  }

  // ----- the inherited prediction -----

  predicate BaseAccepts(f: Filter, xNext: Vec, A: Matrix, Q: Matrix) {
    |xNext| == |f.x| && A.cols == f.P.rows && Q.rows == Q.cols == A.rows
  }

  function BasePrediction(f: Filter, xNext: Vec, A: Matrix, Q: Matrix): Filter
    requires f.Shaped() && BaseAccepts(f, xNext, A, Q)
  {
    f.(x := xNext, P := Add(Mul(Mul(A, f.P), Transpose(A)), Q))
  }

  /** State and covariance keep matching sizes exactly when A is square, which is not checked. */
  lemma BaseKeepsShapeIff(f: Filter, xNext: Vec, A: Matrix, Q: Matrix)
    requires f.Shaped() && BaseAccepts(f, xNext, A, Q)
    ensures BasePrediction(f, xNext, A, Q).Shaped() <==> A.rows == A.cols
  {
    hide Add, Mul, Transpose;
  }

  /** A filter with one state accepts a matrix with two rows. */
  lemma TallExample()
    ensures var f := Filter(1, 1, [0.0], Zero(1, 1));
            f.Shaped() && BaseAccepts(f, [0.0], Zero(2, 1), Zero(2, 2)) &&
            |BasePrediction(f, [0.0], Zero(2, 1), Zero(2, 2)).x| == 1 &&
            BasePrediction(f, [0.0], Zero(2, 1), Zero(2, 2)).P.rows == 2
  {
    hide Add, Mul, Transpose;
    BaseKeepsShapeIff(Filter(1, 1, [0.0], Zero(1, 1)), [0.0], Zero(2, 1), Zero(2, 2));
  }

  // ----- the filter object -----

  class TimeDelayKalmanFilter {
    var x: Vec
    var P: Matrix
    var maxDelayStep: nat
    var dimX: nat
    var dimXEx: nat

    ghost predicate Valid()
      reads this
    {
      View().Shaped() && dimXEx == maxDelayStep * dimX
    }

    ghost function View(): Filter
      reads this
    {
      Filter(dimX, maxDelayStep, x, P)
    }

    constructor Init(x0: Vec, P0: Matrix, maxDelay: nat)
      requires maxDelay >= 1 && P0.rows == P0.cols == |x0|
      ensures Valid() && View() == Initial(x0, P0, maxDelay)
    {
      hide Padded, SetBlock, Repeat, Zero, Diagonal, BlockDiag;
      var n := |x0|;
      var d := maxDelay * n;
      var xs := VZero(d);
      var p := Zero(d, d);
      RepeatLength(x0, 0);
      BlockDiagSize(P0, 0);
      PadEnds(p, BlockDiag(P0, 0));
      var i := 0;
      while i < maxDelay
        invariant 0 <= i <= maxDelay && |xs| == d && p.rows == p.cols == d
        invariant |Repeat(x0, i)| == BlockDiag(P0, i).rows && Repeat(x0, i) <= xs
        invariant Padded(p, BlockDiag(P0, i))
      {
        BlockFits(n, i, maxDelay);
        BlockDiagSize(P0, i);
        RepeatNext(xs, x0, i);
        BlockDiagNext(P0, i);
        PadNext(p, BlockDiag(P0, i), P0);
        xs := xs[..i * n] + x0 + xs[i * n + n..];
        p := SetBlock(p, i * n, i * n, P0);
        i := i + 1;
      }
      BlockDiagSize(P0, maxDelay);
      PadEnds(p, BlockDiag(P0, maxDelay));
      x, P := xs, p;
      maxDelayStep, dimX, dimXEx := maxDelay, n, d;
    }

    method PredictWithDelay(xNext: Vec, A: Matrix, Q: Matrix) returns (ok: bool)
      requires Valid() && Fits(View(), Prediction(xNext, A, Q))
      modifies this
      ensures ok && Valid() && View() == Step(old(View()), Prediction(xNext, A, Q))
    {
      BlockFits(dimX, 0, maxDelayStep);
      var n, d := dimX, dimXEx - dimX;
      x := xNext + x[..d];
      var tmp := Zero(dimXEx, dimXEx);
      tmp := SetBlock(tmp, 0, 0, Add(Mul(Mul(A, Block(P, 0, 0, n, n)), Transpose(A)), Q));
      tmp := SetBlock(tmp, 0, n, Mul(A, Block(P, 0, 0, n, d)));
      tmp := SetBlock(tmp, n, 0, Mul(Block(P, 0, 0, d, n), Transpose(A)));
      tmp := SetBlock(tmp, n, n, Block(P, 0, 0, d, d));
      BlocksArePrediction(P, A, Q);
      P := tmp;
      ok := true;
    }

    /** The inherited prediction. A is not checked to be square: state and covariance keep matching
        sizes exactly when it is. */
    method Predict(xNext: Vec, A: Matrix, Q: Matrix) returns (ok: bool)
      requires Valid()
      modifies this`x, this`P
      ensures ok == (|xNext| == |old(x)| && A.cols == old(P.rows) && Q.rows == Q.cols == A.rows)
      ensures ok ==> View() == BasePrediction(old(View()), xNext, A, Q) && (Valid() <==> A.rows == A.cols)
      ensures ok && PSD(old(P)) && PSD(Q) ==> PSD(P)
      ensures !ok ==> x == old(x) && P == old(P)
    {
      hide PSD, Add, Mul, Transpose;
      if |x| != |xNext| || A.cols != P.rows || Q.cols != Q.rows || A.rows != Q.cols {
        return false;
      }
      if PSD(P) && PSD(Q) { CongruencePSD(A, P, Q); }
      x := xNext;
      P := Add(Mul(Mul(A, P), Transpose(A)), Q);
      ok := true;
    }

    /** The inherited update. `inverse` is None where the computed gain is not finite. */
    method Update(y: Vec, C: Matrix, R: Matrix, inverse: Option<Matrix>) returns (ok: bool)
      requires Valid()
      requires R.rows == R.cols == C.rows && C.cols == P.rows ==> IsInverse(Innovation(P, C, R), inverse)
      modifies this`x, this`P
      ensures Valid()
      ensures ok == (C.cols == old(P.rows) && R.rows == R.cols == C.rows == |y| && inverse.Some?)
      ensures ok ==> x == UpdatedState(old(x), old(P), y, C, inverse.value) &&
                     P == UpdatedCovariance(old(P), C, inverse.value)
      ensures !ok ==> x == old(x) && P == old(P)
    {
      if C.cols != |x| {
        return false;
      }
      var yPred := MulVec(C, x);
      if P.cols != C.cols || R.rows != R.cols || R.rows != C.rows || |y| != |yPred| || |y| != C.rows {
        return false;
      }
      var PCT := Mul(P, Transpose(C));
      if inverse.None? {
        return false;
      }
      var K := Mul(PCT, inverse.value);
      x := VAdd(x, MulVec(K, VSub(y, yPred)));
      P := Sub(P, Mul(K, Mul(C, P)));
      return true;
    }

    method UpdateWithDelay(y: Vec, C: Matrix, R: Matrix, delay: nat, inverse: Option<Matrix>) returns (ok: bool)
      requires Valid() && Fits(View(), Measurement(y, C, R, delay, inverse))
      modifies this
      ensures Valid() && View() == Step(old(View()), Measurement(y, C, R, delay, inverse))
      ensures ok == (delay < old(maxDelayStep) && R.rows == R.cols == C.rows && inverse.Some?)
      ensures !ok ==> View() == old(View())
    {
      if delay >= maxDelayStep {
        return false;
      }
      BlockFits(dimX, delay, maxDelayStep);
      var cEx := Zero(|y|, dimXEx);
      cEx := SetBlock(cEx, 0, dimX * delay, C);
      ok := Update(y, cEx, R, inverse);
    }
  }
}
