/** Dense real matrices and vectors.

    Only what the filter and controller proofs need: products, transposes, blocks, and the
    bilinear form u' * P * v, through which every covariance and cost argument is made. */
module Matrices {

  type Vec = seq<real>

  /** `data` lists the rows. Use `Matrix`, whose values have the announced shape. */
  datatype Grid = Grid(rows: nat, cols: nat, data: seq<Vec>) {
    predicate WellFormed() {
      |data| == rows && forall i :: 0 <= i < rows ==> |data[i]| == cols
    }
  }

  type Matrix = g: Grid | g.WellFormed() witness Grid(0, 0, [])

  // ----- vectors -----

  function Dot(a: Vec, b: Vec): real
    requires |a| == |b|
  {
    DotN(a, b, |a|)
  }

  /** The dot product of the first n entries. */
  function DotN(a: Vec, b: Vec, n: nat): real
    requires n <= |a| && n <= |b|
  {
    if n == 0 then 0.0 else DotN(a, b, n - 1) + a[n - 1] * b[n - 1]
  }

  function VAdd(a: Vec, b: Vec): (r: Vec)
    requires |a| == |b|
    ensures |r| == |a|
  {
    seq(|a|, i requires 0 <= i < |a| => a[i] + b[i])
  }

  function VSub(a: Vec, b: Vec): (r: Vec)
    requires |a| == |b|
    ensures |r| == |a|
  {
    seq(|a|, i requires 0 <= i < |a| => a[i] - b[i])
  }

  function VScale(s: real, a: Vec): (r: Vec)
    ensures |r| == |a|
  {
    seq(|a|, i requires 0 <= i < |a| => s * a[i])
  }

  function VZero(n: nat): (r: Vec)
    ensures |r| == n
  {
    seq(n, i => 0.0)
  }

  function VUnit(n: nat, k: nat): Vec {
    seq(n, i => if i == k then 1.0 else 0.0)
  }

  lemma {:induction false} DotNComm(a: Vec, b: Vec, n: nat)
    requires n <= |a| && n <= |b|
    ensures DotN(a, b, n) == DotN(b, a, n)
  {
    if n > 0 { DotNComm(a, b, n - 1); }
  }

  lemma DotComm(a: Vec, b: Vec)
    requires |a| == |b|
    ensures Dot(a, b) == Dot(b, a)
  {
    DotNComm(a, b, |a|);
  }

  lemma {:induction false} DotNAdd(a: Vec, b: Vec, c: Vec, n: nat)
    requires n <= |a| == |b| == |c|
    ensures DotN(VAdd(a, b), c, n) == DotN(a, c, n) + DotN(b, c, n)
  {
    if n > 0 { DotNAdd(a, b, c, n - 1); }
  }

  lemma DotAdd(a: Vec, b: Vec, c: Vec)
    requires |a| == |b| == |c|
    ensures Dot(VAdd(a, b), c) == Dot(a, c) + Dot(b, c)
  {
    DotNAdd(a, b, c, |a|);
  }

  lemma {:induction false} DotNScale(s: real, a: Vec, b: Vec, n: nat)
    requires n <= |a| == |b|
    ensures DotN(VScale(s, a), b, n) == s * DotN(a, b, n)
  {
    if n > 0 { DotNScale(s, a, b, n - 1); }
  }

  lemma DotScale(s: real, a: Vec, b: Vec)
    requires |a| == |b|
    ensures Dot(VScale(s, a), b) == s * Dot(a, b)
  {
    DotNScale(s, a, b, |a|);
  }

  lemma DotSub(a: Vec, b: Vec, c: Vec)
    requires |a| == |b| == |c|
    ensures Dot(VSub(a, b), c) == Dot(a, c) - Dot(b, c)
    ensures Dot(c, VSub(a, b)) == Dot(c, a) - Dot(c, b)
  {
    assert VSub(a, b) == VAdd(a, VScale(-1.0, b));
    DotAdd(a, VScale(-1.0, b), c);
    DotScale(-1.0, b, c);
    DotComm(c, VSub(a, b));
    DotComm(c, a);
    DotComm(c, b);
  }

  lemma DotAddRight(c: Vec, a: Vec, b: Vec)
    requires |a| == |b| == |c|
    ensures Dot(c, VAdd(a, b)) == Dot(c, a) + Dot(c, b)
  {
    DotComm(c, VAdd(a, b));
    DotAdd(a, b, c);
    DotComm(c, a);
    DotComm(c, b);
  }

  lemma {:induction false} DotNAgree(a: Vec, b: Vec, c: Vec, d: Vec, n: nat)
    requires n <= |a| && n <= |b| && n <= |c| && n <= |d|
    requires forall i :: 0 <= i < n ==> a[i] * b[i] == c[i] * d[i]
    ensures DotN(a, b, n) == DotN(c, d, n)
  {
    if n > 0 { DotNAgree(a, b, c, d, n - 1); }
  }

  lemma {:induction false} DotNZero(b: Vec, n: nat, m: nat)
    requires n <= m && n <= |b|
    ensures DotN(VZero(m), b, n) == 0.0
  {
    if n > 0 { DotNZero(b, n - 1, m); }
  }

  lemma DotZero(n: nat, b: Vec)
    requires |b| == n
    ensures Dot(VZero(n), b) == 0.0 == Dot(b, VZero(n))
  {
    DotNZero(b, n, n);
    DotComm(b, VZero(n));
  }

  lemma {:induction false} DotNUnit(m: nat, k: nat, b: Vec, n: nat)
    requires n <= m && n <= |b|
    ensures DotN(VUnit(m, k), b, n) == if k < n then b[k] else 0.0
  {
    if n > 0 { DotNUnit(m, k, b, n - 1); }
  }

  lemma DotUnit(n: nat, k: nat, b: Vec)
    requires k < n == |b|
    ensures Dot(VUnit(n, k), b) == b[k]
  {
    DotNUnit(n, k, b, n);
  }

  lemma {:induction false} DotNConcat(a1: Vec, a2: Vec, b1: Vec, b2: Vec, n: nat)
    requires |a1| == |b1| && |a2| == |b2| && n <= |a2|
    ensures DotN(a1 + a2, b1 + b2, |a1| + n) == Dot(a1, b1) + DotN(a2, b2, n)
  {
    if n == 0 {
      DotNAgree(a1 + a2, b1 + b2, a1, b1, |a1|);
    } else {
      DotNConcat(a1, a2, b1, b2, n - 1);
    }
  }

  lemma DotConcat(a1: Vec, a2: Vec, b1: Vec, b2: Vec)
    requires |a1| == |b1| && |a2| == |b2|
    ensures Dot(a1 + a2, b1 + b2) == Dot(a1, b1) + Dot(a2, b2)
  {
    DotNConcat(a1, a2, b1, b2, |a2|);
  }

  // ----- matrices -----

  function Zero(r: nat, c: nat): (m: Matrix)
    ensures m.rows == r && m.cols == c
  {
    Grid(r, c, seq(r, i => VZero(c)))
  }

  function Identity(n: nat): (m: Matrix)
    ensures m.rows == m.cols == n
  {
    Grid(n, n, seq(n, i requires 0 <= i < n => VUnit(n, i)))
  }

  function Col(m: Matrix, j: nat): Vec
    requires j < m.cols
  {
    seq(m.rows, i requires 0 <= i < m.rows => m.data[i][j])
  }

  function Transpose(m: Matrix): (r: Matrix)
    ensures r.rows == m.cols && r.cols == m.rows
  {
    Grid(m.cols, m.rows, seq(m.cols, j requires 0 <= j < m.cols => Col(m, j)))
  }

  function Add(a: Matrix, b: Matrix): (r: Matrix)
    requires a.rows == b.rows && a.cols == b.cols
    ensures r.rows == a.rows && r.cols == a.cols
  {
    Grid(a.rows, a.cols, seq(a.rows, i requires 0 <= i < a.rows => VAdd(a.data[i], b.data[i])))
  }

  function Sub(a: Matrix, b: Matrix): (r: Matrix)
    requires a.rows == b.rows && a.cols == b.cols
    ensures r.rows == a.rows && r.cols == a.cols
  {
    Grid(a.rows, a.cols, seq(a.rows, i requires 0 <= i < a.rows => VSub(a.data[i], b.data[i])))
  }

  /** m * v */
  function MulVec(m: Matrix, v: Vec): (r: Vec)
    requires |v| == m.cols
    ensures |r| == m.rows
  {
    seq(m.rows, i requires 0 <= i < m.rows => Dot(m.data[i], v))
  }

  /** v' * m */
  function VecMul(v: Vec, m: Matrix): (r: Vec)
    requires |v| == m.rows
    ensures |r| == m.cols
  {
    seq(m.cols, j requires 0 <= j < m.cols => Dot(v, Col(m, j)))
  }

  function Mul(a: Matrix, b: Matrix): (r: Matrix)
    requires a.cols == b.rows
    ensures r.rows == a.rows && r.cols == b.cols
  {
    Grid(a.rows, b.cols, seq(a.rows, i requires 0 <= i < a.rows => VecMul(a.data[i], b)))
  }

  /** The r x c block of m whose top left entry is (i0, j0). */
  function Block(m: Matrix, i0: nat, j0: nat, r: nat, c: nat): (b: Matrix)
    requires i0 + r <= m.rows && j0 + c <= m.cols
    ensures b.rows == r && b.cols == c
  {
    Grid(r, c, seq(r, i requires 0 <= i < r => m.data[i0 + i][j0..j0 + c]))
  }

  /** m with the block starting at (i0, j0) overwritten by b. */
  function SetBlock(m: Matrix, i0: nat, j0: nat, b: Matrix): (r: Matrix)
    requires i0 + b.rows <= m.rows && j0 + b.cols <= m.cols
    ensures r.rows == m.rows && r.cols == m.cols
  {
    Grid(m.rows, m.cols, seq(m.rows, i requires 0 <= i < m.rows =>
      seq(m.cols, j requires 0 <= j < m.cols =>
        if i0 <= i < i0 + b.rows && j0 <= j < j0 + b.cols then b.data[i - i0][j - j0] else m.data[i][j])))
  }

  lemma SetBlockEntry(m: Matrix, i0: nat, j0: nat, b: Matrix, i: nat, j: nat)
    requires i0 + b.rows <= m.rows && j0 + b.cols <= m.cols && i < m.rows && j < m.cols
    ensures SetBlock(m, i0, j0, b).data[i][j] ==
            if i0 <= i < i0 + b.rows && j0 <= j < j0 + b.cols then b.data[i - i0][j - j0] else m.data[i][j]
  {
  }

  lemma Extensional(a: Matrix, b: Matrix)
    requires a.rows == b.rows && a.cols == b.cols
    requires forall i, j :: 0 <= i < a.rows && 0 <= j < a.cols ==> a.data[i][j] == b.data[i][j]
    ensures a == b
  {
    forall i | 0 <= i < a.rows ensures a.data[i] == b.data[i] { }
    assert a.data == b.data;
  }

  /** (v' m) u == v' (m u), for the first n rows of m. */
  lemma {:induction false} DotNAssoc(v: Vec, m: Matrix, u: Vec, n: nat)
    requires |v| == m.rows && |u| == m.cols && n <= m.rows
    ensures Dot(PartialVecMul(v, m, n), u) == DotN(v, MulVec(m, u), n)
  {
    if n == 0 {
      assert PartialVecMul(v, m, 0) == VZero(m.cols);
      DotZero(m.cols, u);
    } else {
      var rest := PartialVecMul(v, m, n - 1);
      var row := VScale(v[n - 1], m.data[n - 1]);
      forall j | 0 <= j < m.cols ensures PartialVecMul(v, m, n)[j] == VAdd(row, rest)[j] { }
      assert PartialVecMul(v, m, n) == VAdd(row, rest);
      DotAdd(VScale(v[n - 1], m.data[n - 1]), rest, u);
      DotScale(v[n - 1], m.data[n - 1], u);
      DotNAssoc(v, m, u, n - 1);
    }
  }

  function PartialVecMul(v: Vec, m: Matrix, n: nat): Vec
    requires |v| == m.rows && n <= m.rows
  {
    seq(m.cols, j requires 0 <= j < m.cols => DotN(v, Col(m, j), n))
  }

  lemma DotAssoc(v: Vec, m: Matrix, u: Vec)
    requires |v| == m.rows && |u| == m.cols
    ensures Dot(VecMul(v, m), u) == Dot(v, MulVec(m, u))
  {
    assert VecMul(v, m) == PartialVecMul(v, m, m.rows);
    DotNAssoc(v, m, u, m.rows);
  }

  lemma MulVecMul(a: Matrix, b: Matrix, u: Vec)
    requires a.cols == b.rows && |u| == b.cols
    ensures MulVec(Mul(a, b), u) == MulVec(a, MulVec(b, u))
  {
    forall i | 0 <= i < a.rows
      ensures MulVec(Mul(a, b), u)[i] == MulVec(a, MulVec(b, u))[i]
    {
      DotAssoc(a.data[i], b, u);
    }
  }

  lemma TransposeMulVec(m: Matrix, v: Vec)
    requires |v| == m.rows
    ensures MulVec(Transpose(m), v) == VecMul(v, m)
  {
    forall j | 0 <= j < m.cols
      ensures MulVec(Transpose(m), v)[j] == VecMul(v, m)[j]
    {
      DotComm(Col(m, j), v);
    }
  }

  /** (m' v) . u == v . (m u) */
  lemma Adjoint(m: Matrix, v: Vec, u: Vec)
    requires |v| == m.rows && |u| == m.cols
    ensures Dot(MulVec(Transpose(m), v), u) == Dot(v, MulVec(m, u))
    ensures Dot(u, MulVec(Transpose(m), v)) == Dot(v, MulVec(m, u))
  {
    TransposeMulVec(m, v);
    DotAssoc(v, m, u);
    DotComm(u, MulVec(Transpose(m), v));
  }

  lemma MulVecSum(a: Matrix, b: Matrix, v: Vec)
    requires a.rows == b.rows && a.cols == b.cols == |v|
    ensures MulVec(Add(a, b), v) == VAdd(MulVec(a, v), MulVec(b, v))
    ensures MulVec(Sub(a, b), v) == VSub(MulVec(a, v), MulVec(b, v))
  {
    forall i | 0 <= i < a.rows
      ensures MulVec(Add(a, b), v)[i] == VAdd(MulVec(a, v), MulVec(b, v))[i]
      ensures MulVec(Sub(a, b), v)[i] == VSub(MulVec(a, v), MulVec(b, v))[i]
    {
      DotAdd(a.data[i], b.data[i], v);
      DotSub(a.data[i], b.data[i], v);
    }
  }

  lemma MulVecLinear(m: Matrix, u: Vec, v: Vec)
    requires m.cols == |u| == |v|
    ensures MulVec(m, VAdd(u, v)) == VAdd(MulVec(m, u), MulVec(m, v))
    ensures MulVec(m, VSub(u, v)) == VSub(MulVec(m, u), MulVec(m, v))
  {
    forall i | 0 <= i < m.rows
      ensures MulVec(m, VAdd(u, v))[i] == VAdd(MulVec(m, u), MulVec(m, v))[i]
      ensures MulVec(m, VSub(u, v))[i] == VSub(MulVec(m, u), MulVec(m, v))[i]
    {
      DotAddRight(m.data[i], u, v);
      DotSub(u, v, m.data[i]);
    }
  }

  lemma MulVecIdentity(n: nat, v: Vec)
    requires |v| == n
    ensures MulVec(Identity(n), v) == v
  {
    forall i | 0 <= i < n ensures MulVec(Identity(n), v)[i] == v[i] {
      DotUnit(n, i, v);
    }
  }

  // ----- bilinear forms -----

  /** u' * P * v */
  function Bil(P: Matrix, u: Vec, v: Vec): real
    requires |u| == P.rows && |v| == P.cols
  {
    Dot(u, MulVec(P, v))
  }

  function Quad(P: Matrix, v: Vec): real
    requires |v| == P.rows == P.cols
  {
    Bil(P, v, v)
  }

  ghost predicate Symmetric(P: Matrix) {
    P.rows == P.cols && forall i, j :: 0 <= i < P.rows && 0 <= j < P.rows ==> P.data[i][j] == P.data[j][i]
  }

  ghost predicate Nonnegative(P: Matrix)
    requires P.rows == P.cols
  {
    forall v: Vec :: |v| == P.rows ==> Quad(P, v) >= 0.0
  }

  /** Symmetric positive semidefinite. */
  ghost predicate PSD(P: Matrix) {
    Symmetric(P) && Nonnegative(P)
  }

  lemma BilEntry(P: Matrix, i: nat, j: nat)
    requires i < P.rows && j < P.cols
    ensures Bil(P, VUnit(P.rows, i), VUnit(P.cols, j)) == P.data[i][j]
  {
    DotUnit(P.rows, i, MulVec(P, VUnit(P.cols, j)));
    DotComm(P.data[i], VUnit(P.cols, j));
    DotUnit(P.cols, j, P.data[i]);
  }

  lemma SymmetricSwaps(P: Matrix, u: Vec, v: Vec)
    requires Symmetric(P) && |u| == |v| == P.rows
    ensures Bil(P, u, v) == Bil(P, v, u)
    ensures Dot(MulVec(P, u), v) == Dot(u, MulVec(P, v))
  {
    Extensional(Transpose(P), P);
    Adjoint(P, u, v);
    DotComm(MulVec(P, u), v);
  }

  lemma SymmetricFromSwaps(P: Matrix)
    requires P.rows == P.cols
    requires forall u: Vec, v: Vec :: |u| == |v| == P.rows ==> Bil(P, u, v) == Bil(P, v, u)
    ensures Symmetric(P)
  {
    forall i, j | 0 <= i < P.rows && 0 <= j < P.rows ensures P.data[i][j] == P.data[j][i] {
      BilEntry(P, i, j);
      BilEntry(P, j, i);
    }
  }

  lemma BilSum(P: Matrix, Q: Matrix, u: Vec, v: Vec)
    requires P.rows == Q.rows == |u| && P.cols == Q.cols == |v|
    ensures Bil(Add(P, Q), u, v) == Bil(P, u, v) + Bil(Q, u, v)
    ensures Bil(Sub(P, Q), u, v) == Bil(P, u, v) - Bil(Q, u, v)
  {
    MulVecSum(P, Q, v);
    DotAddRight(u, MulVec(P, v), MulVec(Q, v));
    DotSub(MulVec(P, v), MulVec(Q, v), u);
  }

  /** u' (A P B') v == (A' u)' P (B' v) */
  lemma BilCongruence(A: Matrix, P: Matrix, B: Matrix, u: Vec, v: Vec)
    requires A.cols == P.rows && P.cols == B.cols && |u| == A.rows && |v| == B.rows
    ensures Bil(Mul(Mul(A, P), Transpose(B)), u, v) ==
         Bil(P, MulVec(Transpose(A), u), MulVec(Transpose(B), v))
  {
    var w := MulVec(Transpose(B), v);
    MulVecMul(Mul(A, P), Transpose(B), v);
    MulVecMul(A, P, w);
    Adjoint(A, u, MulVec(P, w));
  }

  /** A P A' + Q of positive semidefinite P and Q is positive semidefinite. */
  lemma CongruencePSD(A: Matrix, P: Matrix, Q: Matrix)
    requires A.cols == P.rows && A.rows == Q.rows && PSD(P) && PSD(Q)
    ensures PSD(Add(Mul(Mul(A, P), Transpose(A)), Q))
  {
    var M := Mul(Mul(A, P), Transpose(A));
    forall u: Vec, v: Vec | |u| == |v| == A.rows
      ensures Bil(Add(M, Q), u, v) == Bil(Add(M, Q), v, u)
    {
      BilSum(M, Q, u, v); BilCongruence(A, P, A, u, v);
      BilSum(M, Q, v, u); BilCongruence(A, P, A, v, u);
      SymmetricSwaps(P, MulVec(Transpose(A), u), MulVec(Transpose(A), v));
      SymmetricSwaps(Q, u, v);
    }
    SymmetricFromSwaps(Add(M, Q));
    forall v: Vec | |v| == A.rows ensures Quad(Add(M, Q), v) >= 0.0 {
      BilSum(M, Q, v, v); BilCongruence(A, P, A, v, v);
      assert Quad(P, MulVec(Transpose(A), v)) >= 0.0 && Quad(Q, v) >= 0.0;
    }
  }

  // ----- blocks -----

  lemma BlockFits(n: nat, i: nat, k: nat)
    requires i < k
    ensures 0 <= i * n && i * n + n <= k * n && (i + 1) * n == i * n + n
  {
    MulMonotone(i + 1, k, n);
    assert (i + 1) * n == i * n + n;
  }

  lemma MulMonotone(a: nat, b: nat, n: nat)
    requires a <= b
    ensures 0 <= a * n <= b * n
  {
    var c := b - a;
    assert b * n == (a + c) * n == a * n + c * n;
  }

  lemma ExtendedRowsRead(C: Matrix, lo: nat, x: Vec)
    requires lo + C.cols <= |x|
    ensures MulVec(SetBlock(Zero(C.rows, |x|), 0, lo, C), x) == MulVec(C, x[lo..lo + C.cols])
  {
    var c := SetBlock(Zero(C.rows, |x|), 0, lo, C);
    var x1, x2, x3 := x[..lo], x[lo..lo + C.cols], x[lo + C.cols..];
    assert x == x1 + (x2 + x3);
    forall i | 0 <= i < C.rows ensures MulVec(c, x)[i] == MulVec(C, x2)[i] {
      assert c.data[i] == VZero(lo) + (C.data[i] + VZero(|x3|));
      PaddedDot(C.data[i], x1, x2, x3);
    }
  }

  lemma PaddedDot(r: Vec, x1: Vec, x2: Vec, x3: Vec)
    requires |r| == |x2|
    ensures Dot(VZero(|x1|) + (r + VZero(|x3|)), x1 + (x2 + x3)) == Dot(r, x2)
  {
    DotConcat(VZero(|x1|), r + VZero(|x3|), x1, x2 + x3);
    DotConcat(r, VZero(|x3|), x2, x3);
    DotZero(|x1|, x1);
    DotZero(|x3|, x3);
  }

  /** m with b added to the block starting at (i0, j0). */
  function AddBlock(m: Matrix, i0: nat, j0: nat, b: Matrix): (r: Matrix)
    requires i0 + b.rows <= m.rows && j0 + b.cols <= m.cols
    ensures r.rows == m.rows && r.cols == m.cols
  {
    SetBlock(m, i0, j0, Add(Block(m, i0, j0, b.rows, b.cols), b))
  }

  lemma PaddedMulVec(b: Matrix, n: nat, i0: nat, j0: nat, w: Vec)
    requires i0 + b.rows <= n && j0 + b.cols <= |w|
    ensures MulVec(SetBlock(Zero(n, |w|), i0, j0, b), w) ==
            VZero(i0) + (MulVec(b, w[j0..j0 + b.cols]) + VZero(n - i0 - b.rows))
  {
    var z := SetBlock(Zero(n, |w|), i0, j0, b);
    var w1, w2, w3 := w[..j0], w[j0..j0 + b.cols], w[j0 + b.cols..];
    assert w == w1 + (w2 + w3);
    var r := VZero(i0) + (MulVec(b, w2) + VZero(n - i0 - b.rows));
    forall i | 0 <= i < n ensures MulVec(z, w)[i] == r[i] {
      if i0 <= i < i0 + b.rows {
        assert z.data[i] == VZero(j0) + (b.data[i - i0] + VZero(|w3|));
        PaddedDot(b.data[i - i0], w1, w2, w3);
      } else {
        assert z.data[i] == VZero(|w|);
        DotZero(|w|, w);
      }
    }
  }

  lemma PaddedBil(b: Matrix, i0: nat, j0: nat, u: Vec, w: Vec)
    requires i0 + b.rows <= |u| && j0 + b.cols <= |w|
    ensures Bil(SetBlock(Zero(|u|, |w|), i0, j0, b), u, w) ==
            Bil(b, u[i0..i0 + b.rows], w[j0..j0 + b.cols])
  {
    hide SetBlock, MulVec, Dot;
    PaddedMulVec(b, |u|, i0, j0, w);
    var r := MulVec(b, w[j0..j0 + b.cols]);
    var u1, u2, u3 := u[..i0], u[i0..i0 + b.rows], u[i0 + b.rows..];
    assert u == u1 + (u2 + u3);
    PaddedDot(r, u1, u2, u3);
    DotComm(u, VZero(i0) + (r + VZero(|u3|)));
    DotComm(u2, r);
  }

  /** Adding a block adds its bilinear form on the matching slices. */
  lemma AddBlockBil(m: Matrix, i0: nat, j0: nat, b: Matrix, u: Vec, w: Vec)
    requires |u| == m.rows && |w| == m.cols && i0 + b.rows <= |u| && j0 + b.cols <= |w|
    ensures Bil(AddBlock(m, i0, j0, b), u, w) ==
            Bil(m, u, w) + Bil(b, u[i0..i0 + b.rows], w[j0..j0 + b.cols])
  {
    var z := SetBlock(Zero(|u|, |w|), i0, j0, b);
    AddBlockIsSum(m, i0, j0, b);
    BilSum(m, z, u, w);
    PaddedBil(b, i0, j0, u, w);
  }

  lemma AddBlockIsSum(m: Matrix, i0: nat, j0: nat, b: Matrix)
    requires i0 + b.rows <= m.rows && j0 + b.cols <= m.cols
    ensures AddBlock(m, i0, j0, b) == Add(m, SetBlock(Zero(m.rows, m.cols), i0, j0, b))
  {
    hide SetBlock;
    var s := Add(Block(m, i0, j0, b.rows, b.cols), b);
    forall i, j | 0 <= i < m.rows && 0 <= j < m.cols
      ensures AddBlock(m, i0, j0, b).data[i][j] ==
              Add(m, SetBlock(Zero(m.rows, m.cols), i0, j0, b)).data[i][j]
    {
      SetBlockEntry(m, i0, j0, s, i, j);
      SetBlockEntry(Zero(m.rows, m.cols), i0, j0, b, i, j);
    }
    Extensional(AddBlock(m, i0, j0, b), Add(m, SetBlock(Zero(m.rows, m.cols), i0, j0, b)));
  }
}
