/** The tridiagonal solver of the spline, as written: the forward sweep of row i uses the
    super-diagonal entry of row i - 1.

    Its solution satisfies every row up to an explicit residual, so it solves the system for every
    right-hand side exactly when the super-diagonal is constant. */
module Tridiagonal {
  /** Sub-diagonal, diagonal and super-diagonal. */
  datatype System = System(a: seq<real>, b: seq<real>, c: seq<real>) {
    function N(): nat { |b| }

    predicate Shaped() { |b| >= 1 && |a| == |c| == |b| - 1 }
  }

  function Ratio(x: real, y: real): real {
    if y == 0.0 then 0.0 else x / y
  }

  /** Row i of the system applied to x. */
  function Row(s: System, x: seq<real>, i: nat): real
    requires s.Shaped() && |x| == s.N() && i < s.N()
  {
    (if i > 0 then s.a[i - 1] * x[i - 1] else 0.0) + s.b[i] * x[i] +
    (if i + 1 < s.N() then s.c[i] * x[i + 1] else 0.0)
  }

  predicate Solves(s: System, d: seq<real>, x: seq<real>)
    requires s.Shaped() && |x| == |d| == s.N()
  {
    forall i :: 0 <= i < s.N() ==> Row(s, x, i) == d[i]
  }

  // ----- the sweeps -----

  /** The super-diagonal entry used in the sweep of row i. */
  function Swept(s: System, i: nat): real
    requires s.Shaped() && i < s.N()
  {
    if s.N() == 1 then 0.0 else if i == 0 then s.c[0] else s.c[i - 1]
  }

  function Den(s: System, i: nat): real
    requires s.Shaped() && i < s.N()
    decreases i, 0
  {
    if i == 0 then s.b[0] else s.b[i] + s.a[i - 1] * P(s, i - 1)
  }

  function P(s: System, i: nat): real
    requires s.Shaped() && i < s.N()
    decreases i, 1
  {
    Ratio(-Swept(s, i), Den(s, i))
  }

  function Q(s: System, d: seq<real>, i: nat): real
    requires s.Shaped() && |d| == s.N() && i < s.N()
    decreases i, 1
  {
    Ratio(Reduced(s, d, i), Den(s, i))
  }

  /** The right-hand side of row i after elimination. */
  function Reduced(s: System, d: seq<real>, i: nat): real
    requires s.Shaped() && |d| == s.N() && i < s.N()
    decreases i, 0
  {
    if i == 0 then d[0] else d[i] - s.a[i - 1] * Q(s, d, i - 1)
  }

  /** The denominators divided by. */
  ghost predicate Pivots(s: System)
    requires s.Shaped()
  {
    forall i :: 0 <= i < s.N() ==> Den(s, i) != 0.0
  }

  function X(s: System, d: seq<real>, i: nat): real
    requires s.Shaped() && |d| == s.N() && i < s.N()
    decreases s.N() - i
  {
    if i == s.N() - 1 then Q(s, d, i) else P(s, i) * X(s, d, i + 1) + Q(s, d, i)
  }

  lemma SweepStart(s: System, d: seq<real>)
    requires s.Shaped() && |d| == s.N() && Pivots(s)
    ensures s.b[0] != 0.0 && Q(s, d, 0) == d[0] / s.b[0]
    ensures s.N() > 1 ==> P(s, 0) == -s.c[0] / s.b[0]
  {
    assert Den(s, 0) != 0.0;
  }

  lemma SweepPivot(s: System, i: nat, p: real, den: real)
    requires s.Shaped() && Pivots(s) && 1 <= i < s.N() && p == P(s, i - 1) && den == s.b[i] + s.a[i - 1] * p
    ensures den == Den(s, i) && den != 0.0
  {
    hide P;
    assert Den(s, i) != 0.0;
  }

  /** One step of the forward sweep from the values of the row above. */
  lemma SweepStep(s: System, d: seq<real>, i: nat, q: real, nextP: real, nextQ: real)
    requires s.Shaped() && |d| == s.N() && 1 <= i < s.N() && Den(s, i) != 0.0 && q == Q(s, d, i - 1)
    requires nextP == -s.c[i - 1] / Den(s, i) && nextQ == (d[i] - s.a[i - 1] * q) / Den(s, i)
    ensures nextP == P(s, i) && nextQ == Q(s, d, i)
  {
    hide Ratio, Den;
    RatioIs(-s.c[i - 1], Den(s, i));
    RatioIs(Reduced(s, d, i), Den(s, i));
  }

  lemma RatioIs(x: real, y: real)
    requires y != 0.0
    ensures Ratio(x, y) == x / y
  {
  }

  lemma BackStep(s: System, d: seq<real>, i: nat)
    requires s.Shaped() && |d| == s.N() && i < s.N()
    ensures X(s, d, i) == if i == s.N() - 1 then Q(s, d, i) else P(s, i) * X(s, d, i + 1) + Q(s, d, i)
  {
  }

  method SolveTridiagonalMatrixAlgorithm(s: System, d: seq<real>) returns (x: seq<real>)
    requires s.Shaped() && |d| == s.N() && Pivots(s)
    ensures |x| == s.N() && forall i :: 0 <= i < s.N() ==> x[i] == X(s, d, i)
  {
    hide P, Q, X, Pivots;
    SweepStart(s, d);
    if s.N() != 1 {
      var p, q := ForwardSweep(s, d);
      x := BackwardSweep(s, d, p, q);
    } else {
      BackStep(s, d, 0);
      x := [d[0] / s.b[0]];
    }
  }

  method ForwardSweep(s: System, d: seq<real>) returns (p: seq<real>, q: seq<real>)
    requires s.Shaped() && |d| == s.N() >= 2 && Pivots(s)
    ensures |p| == |q| == s.N() && forall k :: 0 <= k < s.N() ==> p[k] == P(s, k) && q[k] == Q(s, d, k)
  {
    hide P, Q, Pivots, Den;
    SweepStart(s, d);
    p, q := [-s.c[0] / s.b[0]], [d[0] / s.b[0]];
    var i := 1;
    while i < s.N()
      invariant 1 <= i <= s.N() && |p| == |q| == i
      invariant forall k :: 0 <= k < i ==> p[k] == P(s, k) && q[k] == Q(s, d, k)
    {
      var den := s.b[i] + s.a[i - 1] * p[i - 1];
      SweepPivot(s, i, p[i - 1], den);
      var nextP, nextQ := -s.c[i - 1] / den, (d[i] - s.a[i - 1] * q[i - 1]) / den;
      SweepStep(s, d, i, q[i - 1], nextP, nextQ);
      p := p + [nextP];
      q := q + [nextQ];
      i := i + 1;
    }
  }

  method BackwardSweep(s: System, d: seq<real>, p: seq<real>, q: seq<real>) returns (x: seq<real>)
    requires s.Shaped() && |d| == s.N() == |p| == |q|
    requires forall k :: 0 <= k < s.N() ==> p[k] == P(s, k) && q[k] == Q(s, d, k)
    ensures |x| == s.N() && forall i :: 0 <= i < s.N() ==> x[i] == X(s, d, i)
  {
    hide P, Q, X;
    var n := s.N();
    x := seq(n, _ => 0.0);
    x := x[n - 1 := q[n - 1]];
    BackStep(s, d, n - 1);
    var i := 1;
    while i < n
      invariant 1 <= i <= n && |x| == n
      invariant forall k :: n - i <= k < n ==> x[k] == X(s, d, k)
    {
      var j := n - 1 - i;
      BackStep(s, d, j);
      x := x[j := p[j] * x[j + 1] + q[j]];
      i := i + 1;
    }
  }

  // ----- the residual -----

  /** By how much row i is missed: nothing in the first and the last row. */
  function Residual(s: System, x: seq<real>, i: nat): real
    requires s.Shaped() && |x| == s.N() && i < s.N()
  {
    if 1 <= i < s.N() - 1 then (s.c[i] - s.c[i - 1]) * x[i + 1] else 0.0
  }

  lemma RatioTimes(x: real, y: real)
    requires y != 0.0
    ensures Ratio(x, y) * y == x
  {
  }

  lemma SweepTimes(s: System, d: seq<real>, i: nat)
    requires s.Shaped() && |d| == s.N() && i < s.N() && Pivots(s)
    ensures P(s, i) * Den(s, i) == -Swept(s, i)
    ensures Q(s, d, i) * Den(s, i) == Reduced(s, d, i)
  {
    hide Ratio, Den, Swept, Reduced;
    assert Den(s, i) != 0.0;
    RatioTimes(-Swept(s, i), Den(s, i));
    RatioTimes(Reduced(s, d, i), Den(s, i));
  }

  lemma RowResidual(s: System, d: seq<real>, x: seq<real>, i: nat)
    requires s.Shaped() && |d| == |x| == s.N() && i < s.N() && Pivots(s)
    requires forall k :: 0 <= k < s.N() ==> x[k] == X(s, d, k)
    ensures Row(s, x, i) == d[i] + Residual(s, x, i)
  {
    hide P, Q, X, Pivots, Den, Reduced, Swept, Row;
    SweepTimes(s, d, i);
    RowReduced(s, d, x, i);
    BackStep(s, d, i);
    if i == s.N() - 1 {
      LastRow(Den(s, i), Q(s, d, i), Reduced(s, d, i));
    } else {
      Substituted(Den(s, i), P(s, i), Q(s, d, i), x[i + 1], Swept(s, i), Reduced(s, d, i));
      Missed(s, i, x[i + 1]);
    }
  }

  /** What elimination makes of the left part of row i. */
  lemma RowReduced(s: System, d: seq<real>, x: seq<real>, i: nat)
    requires s.Shaped() && |d| == |x| == s.N() && i < s.N()
    requires forall k :: 0 <= k < s.N() ==> x[k] == X(s, d, k)
    ensures Row(s, x, i) ==
            Den(s, i) * x[i] + (d[i] - Reduced(s, d, i)) + if i + 1 < s.N() then s.c[i] * x[i + 1] else 0.0
  {
    hide P, Q;
    if i > 0 { Eliminated(s.a[i - 1], s.b[i], P(s, i - 1), Q(s, d, i - 1), x[i]); }
  }

  lemma LastRow(den: real, q: real, rhs: real)
    requires q * den == rhs
    ensures den * q == rhs
  {
  }

  lemma Missed(s: System, i: nat, next: real)
    requires s.Shaped() && i + 1 < s.N()
    ensures s.c[i] * next - Swept(s, i) * next == if i == 0 then 0.0 else (s.c[i] - s.c[i - 1]) * next
  {
  }

  lemma Eliminated(a: real, b: real, p: real, q: real, x: real)
    ensures a * (p * x + q) + b * x == (b + a * p) * x + a * q
  {
  }

  lemma Substituted(den: real, p: real, q: real, next: real, c: real, rhs: real)
    requires q * den == rhs && p * den == -c
    ensures den * (p * next + q) == rhs - c * next
  {
    assert den * (p * next + q) == (p * den) * next + q * den;
  }

  /** The result solves the system exactly when every interior row has equal neighbouring
      super-diagonal entries or a zero in the next unknown. */
  lemma SolvesIff(s: System, d: seq<real>, x: seq<real>)
    requires s.Shaped() && |d| == |x| == s.N() && Pivots(s)
    requires forall k :: 0 <= k < s.N() ==> x[k] == X(s, d, k)
    ensures Solves(s, d, x) <==>
            forall i :: 1 <= i < s.N() - 1 ==> s.c[i] == s.c[i - 1] || x[i + 1] == 0.0
  {
    hide X, P, Q, Row, Residual;
    forall i | 0 <= i < s.N() ensures Row(s, x, i) == d[i] <==> Residual(s, x, i) == 0.0 {
      RowResidual(s, d, x, i);
    }
    if forall i :: 1 <= i < s.N() - 1 ==> s.c[i] == s.c[i - 1] || x[i + 1] == 0.0 {
      forall i | 0 <= i < s.N() ensures Row(s, x, i) == d[i] { ResidualZero(s, x, i); }
    }
    if Solves(s, d, x) {
      forall i | 1 <= i < s.N() - 1 ensures s.c[i] == s.c[i - 1] || x[i + 1] == 0.0 {
        assert Row(s, x, i) == d[i];
        ResidualZero(s, x, i);
      }
    }
  }

  lemma ResidualZero(s: System, x: seq<real>, i: nat)
    requires s.Shaped() && |x| == s.N() && i < s.N()
    ensures Residual(s, x, i) == 0.0 <==> (1 <= i < s.N() - 1 ==> s.c[i] == s.c[i - 1] || x[i + 1] == 0.0)
  {
    if 1 <= i < s.N() - 1 { ZeroProduct(s.c[i] - s.c[i - 1], x[i + 1]); }
  }

  lemma ZeroProduct(u: real, v: real)
    ensures u * v == 0.0 <==> u == 0.0 || v == 0.0
  {
  }

  // ----- exact for every right-hand side -----

  predicate ConstantSuper(s: System)
    requires s.Shaped()
  {
    forall i :: 1 <= i < |s.c| ==> s.c[i] == s.c[i - 1]
  }

  function Solution(s: System, d: seq<real>): (x: seq<real>)
    requires s.Shaped() && |d| == s.N()
    ensures |x| == s.N() && forall i :: 0 <= i < s.N() ==> x[i] == X(s, d, i)
  {
    seq(s.N(), i requires 0 <= i < s.N() => X(s, d, i))
  }

  /** A right-hand side whose forward sweep is one at row m and zero elsewhere. */
  function Probe(s: System, m: nat): (d: seq<real>)
    requires s.Shaped()
    ensures |d| == s.N()
  {
    seq(s.N(), k requires 0 <= k < s.N() =>
      if k == m then Den(s, k) else if k == m + 1 then s.a[k - 1] else 0.0)
  }

  lemma {:induction false} ProbeSweep(s: System, m: nat, k: nat)
    requires s.Shaped() && Pivots(s) && m < s.N() && k < s.N()
    ensures Q(s, Probe(s, m), k) == if k == m then 1.0 else 0.0
  {
    hide Den, Ratio;
    var d := Probe(s, m);
    if k > 0 {
      ProbeSweep(s, m, k - 1);
      ZeroOrOne(s.a[k - 1], Q(s, d, k - 1));
    }
    assert Reduced(s, d, k) == if k == m then Den(s, k) else 0.0;
    assert Den(s, k) != 0.0;
    RatioEnds(Den(s, k));
  }

  lemma ZeroOrOne(a: real, q: real)
    ensures q == 0.0 ==> a * q == 0.0
    ensures q == 1.0 ==> a * q == a
  {
  }

  lemma RatioEnds(y: real)
    requires y != 0.0
    ensures Ratio(y, y) == 1.0 && Ratio(0.0, y) == 0.0
  {
  }

  lemma {:induction false} ProbeSolution(s: System, m: nat, k: nat)
    requires s.Shaped() && Pivots(s) && m <= k < s.N()
    ensures X(s, Probe(s, m), k) == if k == m then 1.0 else 0.0
    decreases s.N() - k
  {
    hide P, Probe;
    ProbeSweep(s, m, k);
    if k < s.N() - 1 { ProbeSolution(s, m, k + 1); }
  }

  lemma ExactIfConstant(s: System, d: seq<real>)
    requires s.Shaped() && Pivots(s) && ConstantSuper(s) && |d| == s.N()
    ensures Solves(s, d, Solution(s, d))
  {
    hide X, Den, Pivots, Solves;
    SolvesIff(s, d, Solution(s, d));
  }

  lemma InexactProbe(s: System) returns (d: seq<real>)
    requires s.Shaped() && Pivots(s) && !ConstantSuper(s)
    ensures |d| == s.N() && !Solves(s, d, Solution(s, d))
  {
    hide X, Probe, Den, Pivots, Solves;
    var i :| 1 <= i < |s.c| && s.c[i] != s.c[i - 1];
    d := Probe(s, i + 1);
    ProbeSolution(s, i + 1, i + 1);
    var x := Solution(s, d);
    assert x[i + 1] == 1.0;
    SolvesIff(s, d, x);
    assert 1 <= i < s.N() - 1;
    assert !(s.c[i] == s.c[i - 1] || x[i + 1] == 0.0);
    assert !Solves(s, d, x);
  }

  /** The solver is exact for every right-hand side if and only if all entries of the super-diagonal
      are equal; in particular with at most two rows. */
  lemma ExactForAllIff(s: System)
    requires s.Shaped() && Pivots(s)
    ensures (forall d: seq<real> :: |d| == s.N() ==> Solves(s, d, Solution(s, d))) <==> ConstantSuper(s)
    ensures s.N() <= 2 ==> ConstantSuper(s)
  {
    hide Solution, Pivots, Solves;
    if ConstantSuper(s) {
      forall d: seq<real> | |d| == s.N() ensures Solves(s, d, Solution(s, d)) { ExactIfConstant(s, d); }
    } else {
      var d := InexactProbe(s);
    }
  }
}
