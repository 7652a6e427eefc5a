/** Complex polynomials given by their coefficients, the leading one first. */
module Polynomials {
  import opened Complexes
  import opened Permutations

  type Coefficients = seq<Complex>

  /** The coefficients times (z - r). */
  function MulRoot(c: Coefficients, r: Complex): (d: Coefficients)
    ensures |d| == |c| + 1
  {
    seq(|c| + 1, k requires 0 <= k <= |c| =>
      Minus(if k < |c| then c[k] else ZERO, Times(r, if k > 0 then c[k - 1] else ZERO)))
  }

  /** The coefficients of the product of (z - r) over the roots. */
  function PolyOf(roots: seq<Complex>): (c: Coefficients)
    ensures |c| == |roots| + 1
  {
    if roots == [] then [ONE] else MulRoot(PolyOf(roots[..|roots| - 1]), roots[|roots| - 1])
  }

  function Eval(c: Coefficients, z: Complex): Complex {
    if c == [] then ZERO else Plus(Times(Eval(c[..|c| - 1], z), z), c[|c| - 1])
  }

  function Factors(roots: seq<Complex>, z: Complex): (fs: seq<Complex>)
    ensures |fs| == |roots|
  {
    seq(|roots|, i requires 0 <= i < |roots| => Minus(z, roots[i]))
  }

  // ----- the in-place expansion -----

  /** Coefficients k.. of the next product are in place, the others still belong to the last one. */
  ghost predicate Expanding(before: Coefficients, c: Coefficients, i: nat, r: Complex, k: int)
    requires i + 1 < |before|
  {
    && |c| == |before| && 0 <= k <= i + 2
    && (forall l :: 0 <= l < k ==> c[l] == before[l])
    && (forall l :: k <= l < i + 2 ==> c[l] == MulRoot(before[..i + 1], r)[l])
    && (forall l :: i + 2 <= l < |c| ==> c[l] == before[l])
  }

  lemma ExpandStep(before: Coefficients, c: Coefficients, i: nat, r: Complex, j: nat)
    requires i + 1 < |before| && before[i + 1] == ZERO && j <= i
    requires Expanding(before, c, i, r, j + 2)
    ensures Expanding(before, c[j + 1 := Minus(c[j + 1], Times(r, c[j]))], i, r, j + 1)
  {
    hide Times, Minus;
  }

  lemma ExpandEnd(before: Coefficients, c: Coefficients, i: nat, r: Complex)
    requires i + 1 < |before| && Expanding(before, c, i, r, 1)
    ensures c[..i + 2] == MulRoot(before[..i + 1], r)
  {
    TimesOne(r);
  }

  method Poly(roots: seq<Complex>) returns (coefficients: Coefficients)
    ensures coefficients == PolyOf(roots)
  {
    hide Expanding, Times, MulRoot;
    var n := |roots|;
    coefficients := seq(n + 1, _ => ZERO);
    coefficients := coefficients[0 := ONE];
    var i := 0;
    while i < n
      invariant 0 <= i <= n && |coefficients| == n + 1
      invariant coefficients[..i + 1] == PolyOf(roots[..i])
      invariant forall l :: i < l <= n ==> coefficients[l] == ZERO
    {
      ghost var before := coefficients;
      ExpandStart(before, i, roots[i]);
      var j := i;
      while j != -1
        invariant -1 <= j <= i && |coefficients| == n + 1
        invariant Expanding(before, coefficients, i, roots[i], j + 2)
        decreases j + 1
      {
        ExpandStep(before, coefficients, i, roots[i], j);
        coefficients :=
          coefficients[j + 1 := Minus(coefficients[j + 1], Times(roots[i], coefficients[j]))];
        j := j - 1;
      }
      ExpandEnd(before, coefficients, i, roots[i]);
      ExpandRest(before, coefficients, i, roots[i]);
      assert roots[..i + 1][..i] == roots[..i];
      i := i + 1;
    }
    assert roots[..n] == roots && coefficients[..n + 1] == coefficients;
  }

  lemma ExpandStart(before: Coefficients, i: nat, r: Complex)
    requires i + 1 < |before|
    ensures Expanding(before, before, i, r, i + 2)
  {
  }

  lemma ExpandRest(before: Coefficients, c: Coefficients, i: nat, r: Complex)
    requires i + 1 < |before| && Expanding(before, c, i, r, 1)
    requires forall l :: i < l < |before| ==> before[l] == ZERO
    ensures forall l :: i + 1 < l < |c| ==> c[l] == ZERO
  {
  }

  // ----- the coefficients are those of the product -----

  lemma {:induction false} EvalMulRoot(c: Coefficients, r: Complex, z: Complex)
    requires c != []
    ensures Eval(MulRoot(c, r), z) == Times(Eval(c, z), Minus(z, r))
  {
    hide Times;
    var n := |c| - 1;
    var init, last, d := c[..n], c[n], MulRoot(c, r);
    assert d[..n + 1][..n] == d[..n];
    assert d[n + 1] == Minus(ZERO, Times(r, last));
    if n == 0 {
      TimesOne(z);
      TimesOne(r);
      TimesOne(Minus(z, r));
      EvalSingle(last, z);
      assert d[..1] == [last] && c == [last];
      HornerStep(ZERO, last, z, r);
    } else {
      var e := MulRoot(init, r);
      EvalMulRoot(init, r, z);
      assert d[..n] == e[..n];
      assert d[n] == Minus(last, Times(r, init[n - 1])) && e[n] == Minus(ZERO, Times(r, init[n - 1]));
      assert Eval(d[..n + 1], z) == Plus(Eval(e, z), last) by {
        assert Eval(e, z) == Plus(Times(Eval(e[..n], z), z), e[n]);
        assert Eval(d[..n + 1], z) == Plus(Times(Eval(d[..n], z), z), d[n]);
      }
      HornerStep(Eval(init, z), last, z, r);
    }
  }

  lemma EvalSingle(a: Complex, z: Complex)
    ensures Eval([a], z) == Plus(Times(ZERO, z), a) == a
  {
    assert [a][..0] == [];
    assert Eval([], z) == ZERO;
  }

  /** (p (z - r) + l) z - r l == (p z + l) (z - r) */
  lemma HornerStep(p: Complex, l: Complex, z: Complex, r: Complex)
    ensures Plus(Times(Plus(Times(p, Minus(z, r)), l), z), Minus(ZERO, Times(r, l))) ==
            Times(Plus(Times(p, z), l), Minus(z, r))
  {
    hide Times;
    var w := Minus(z, r);
    TimesPlus(z, Times(p, w), l);
    TimesAssoc(p, w, z);
    TimesComm(w, z);
    TimesAssoc(p, z, w);
    TimesPlus(w, Times(p, z), l);
    TimesMinus(l, z, r);
    TimesComm(l, r);
  }

  /** At every point the expanded polynomial has the value of the product of (z - root). */
  lemma {:induction false} PolyIsProduct(roots: seq<Complex>, z: Complex)
    ensures Eval(PolyOf(roots), z) == Product(Factors(roots, z))
  {
    hide Times, MulRoot;
    if roots == [] {
      assert Eval([ONE], z) == Plus(Times(Eval([ONE][..0], z), z), ONE);
      TimesOne(z);
    } else {
      var n := |roots| - 1;
      PolyIsProduct(roots[..n], z);
      EvalMulRoot(PolyOf(roots[..n]), roots[n], z);
      assert Factors(roots, z)[..n] == Factors(roots[..n], z);
    }
  }

  // ----- the order of the roots does not matter -----

  lemma MulRootSwap(c: Coefficients, r: Complex, s: Complex)
    ensures MulRoot(MulRoot(c, r), s) == MulRoot(MulRoot(c, s), r)
  {
    hide Times;
    var a, b := MulRoot(MulRoot(c, r), s), MulRoot(MulRoot(c, s), r);
    forall k | 0 <= k < |a| ensures a[k] == b[k] {
      var x := if k < |c| then c[k] else ZERO;
      var y := if 1 <= k <= |c| then c[k - 1] else ZERO;
      var w := if k >= 2 then c[k - 2] else ZERO;
      TimesOne(r);
      TimesOne(s);
      SwapEntry(x, y, w, r, s);
    }
  }

  lemma SwapEntry(x: Complex, y: Complex, w: Complex, r: Complex, s: Complex)
    ensures Minus(Minus(x, Times(r, y)), Times(s, Minus(y, Times(r, w)))) ==
            Minus(Minus(x, Times(s, y)), Times(r, Minus(y, Times(s, w))))
  {
    hide Times;
    TimesMinus(s, y, Times(r, w));
    TimesMinus(r, y, Times(s, w));
    TimesAssoc(s, r, w);
    TimesAssoc(r, s, w);
    TimesComm(r, s);
  }

  lemma {:induction false} PolyTakenOut(a: seq<Complex>, r: Complex, b: seq<Complex>)
    ensures PolyOf(a + ([r] + b)) == MulRoot(PolyOf(a + b), r)
  {
    hide MulRoot;
    if b == [] {
      assert a + ([r] + b) == a + [r] && a + b == a && (a + [r])[..|a|] == a;
    } else {
      var n := |b| - 1;
      PolyTakenOut(a, r, b[..n]);
      assert (a + ([r] + b))[..|a| + 1 + n] == a + ([r] + b[..n]);
      assert (a + b)[..|a| + n] == a + b[..n];
      MulRootSwap(PolyOf(a + b[..n]), r, b[n]);
    }
  }

  lemma {:induction false} PolyPermutation(a: seq<Complex>, b: seq<Complex>)
    requires multiset(a) == multiset(b)
    ensures PolyOf(a) == PolyOf(b)
  {
    hide MulRoot, PolyOf;
    if a == [] {
      assert |b| == |multiset(b)| == 0;
    } else {
      var j := TakenOut(a, b);
      PolyPermutation(a[1..], b[..j] + b[j + 1..]);
      PolyTakenOut(b[..j], b[j], b[j + 1..]);
      PolyTakenOut([], a[0], a[1..]);
      assert [] + ([a[0]] + a[1..]) == a && [] + a[1..] == a[1..];
    }
  }

  // ----- conjugate roots give real coefficients -----

  function ConjAll(c: seq<Complex>): (d: seq<Complex>)
    ensures |d| == |c|
  {
    seq(|c|, i requires 0 <= i < |c| => Conj(c[i]))
  }

  lemma ConjZero()
    ensures Conj(ZERO) == ZERO
  {
  }

  lemma ConjMinus(a: Complex, b: Complex)
    ensures Conj(Minus(a, b)) == Minus(Conj(a), Conj(b))
  {
  }

  lemma ConjMulRoot(c: Coefficients, r: Complex)
    ensures MulRoot(ConjAll(c), Conj(r)) == ConjAll(MulRoot(c, r))
  {
    hide Times, Minus, Conj;
    var a, b := MulRoot(ConjAll(c), Conj(r)), ConjAll(MulRoot(c, r));
    ConjZero();
    forall k | 0 <= k < |a| ensures a[k] == b[k] {
      var x := if k < |c| then c[k] else ZERO;
      var y := if k > 0 then c[k - 1] else ZERO;
      ConjTimes(r, y);
      ConjMinus(x, Times(r, y));
    }
  }

  lemma {:induction false} PolyOfConjugates(roots: seq<Complex>)
    ensures PolyOf(ConjAll(roots)) == ConjAll(PolyOf(roots))
  {
    hide MulRoot;
    if roots != [] {
      var n := |roots| - 1;
      PolyOfConjugates(roots[..n]);
      assert ConjAll(roots)[..n] == ConjAll(roots[..n]);
      ConjMulRoot(PolyOf(roots[..n]), roots[n]);
    }
  }

  predicate AllReal(c: seq<Complex>) {
    forall i :: 0 <= i < |c| ==> c[i].im == 0.0
  }

  /** A list of roots closed under conjugation has real coefficients. */
  lemma RealCoefficients(roots: seq<Complex>)
    requires Paired(roots)
    ensures AllReal(PolyOf(roots))
  {
    hide PolyOf;
    assert ConjAll(roots) == Reverse(roots);
    ReverseIsPermutation(roots);
    PolyPermutation(roots, ConjAll(roots));
    PolyOfConjugates(roots);
    forall i | 0 <= i < |PolyOf(roots)| ensures PolyOf(roots)[i].im == 0.0 {
      assert ConjAll(PolyOf(roots))[i] == PolyOf(roots)[i];
    }
  }

  function ScaleAll(c: Coefficients, g: Complex): (d: Coefficients)
    ensures |d| == |c|
  {
    seq(|c|, i requires 0 <= i < |c| => Times(c[i], g))
  }

  lemma {:induction false} EvalScaled(c: Coefficients, g: Complex, z: Complex)
    ensures Eval(ScaleAll(c, g), z) == Times(Eval(c, z), g)
  {
    hide Times;
    if c == [] {
      TimesOne(g);
    } else {
      var n := |c| - 1;
      EvalScaled(c[..n], g, z);
      assert ScaleAll(c, g)[..n] == ScaleAll(c[..n], g);
      TimesPlus(g, Times(Eval(c[..n], z), z), c[n]);
      TimesAssoc(Eval(c[..n], z), g, z);
      TimesComm(g, z);
      TimesAssoc(Eval(c[..n], z), z, g);
    }
  }

  /** The sum of the coefficients is the value at 1. */
  function Sum(c: Coefficients): Complex {
    if c == [] then ZERO else Plus(Sum(c[..|c| - 1]), c[|c| - 1])
  }

  lemma {:induction false} SumIsEval(c: Coefficients)
    ensures Sum(c) == Eval(c, ONE)
  {
    hide Times;
    if c != [] {
      SumIsEval(c[..|c| - 1]);
      TimesOne(Eval(c[..|c| - 1], ONE));
    }
  }

  // ----- a polynomial is the product over its roots -----

  /** What is left of the coefficients after dividing by (z - r). */
  function Quotient(c: Coefficients, r: Complex): (q: Coefficients)
    requires c != []
    ensures |q| == |c| - 1
  {
    seq(|c| - 1, k requires 0 <= k < |c| - 1 => Eval(c[..k + 1], r))
  }

  lemma EvalPrefix(c: Coefficients, r: Complex, k: nat)
    requires k < |c|
    ensures Eval(c[..k + 1], r) == Plus(Times(Eval(c[..k], r), r), c[k])
  {
    hide Times;
    assert c[..k + 1][..k] == c[..k];
  }

  /** A root divides without remainder. */
  lemma RootDivides(c: Coefficients, r: Complex)
    requires c != [] && Eval(c, r) == ZERO
    ensures MulRoot(Quotient(c, r), r) == c
  {
    hide Times, Eval, Minus, Plus;
    var q := Quotient(c, r);
    var d := MulRoot(q, r);
    assert c[..|c|] == c;
    TimesOne(r);
    EvalNothing(c, r);
    forall k | 0 <= k < |c| ensures d[k] == c[k] {
      var before, here := Eval(c[..k], r), Eval(c[..k + 1], r);
      assert (if k > 0 then q[k - 1] else ZERO) == before;
      assert (if k < |q| then q[k] else ZERO) == here;
      EvalPrefix(c, r, k);
      TimesComm(r, before);
      MinusPlus(Times(before, r), c[k]);
    }
  }

  lemma MinusPlus(a: Complex, b: Complex)
    ensures Minus(Plus(a, b), a) == b
  {
  }

  lemma EvalNothing(c: Coefficients, r: Complex)
    ensures Eval(c[..0], r) == ZERO
  {
  }

  predicate Distinct(zs: seq<Complex>) {
    forall i, j :: 0 <= i < j < |zs| ==> zs[i] != zs[j]
  }

  /** A monic polynomial with as many distinct roots as its degree is the product over them. */
  lemma {:induction false} FactorTheorem(c: Coefficients, roots: seq<Complex>)
    requires |c| == |roots| + 1 && c[0] == ONE && Distinct(roots)
    requires forall i :: 0 <= i < |roots| ==> Eval(c, roots[i]) == ZERO
    ensures c == PolyOf(roots)
    decreases |roots|
  {
    hide Times, Eval, MulRoot, Minus, Quotient;
    if roots != [] {
      var n := |roots| - 1;
      var r := roots[n];
      var q := Quotient(c, r);
      RootDivides(c, r);
      QuotientLead(c, r);
      forall i | 0 <= i < n ensures Eval(q, roots[i]) == ZERO {
        EvalMulRoot(q, r, roots[i]);
        OtherRoot(Eval(q, roots[i]), roots[i], r);
      }
      FactorTheorem(q, roots[..n]);
    }
  }

  lemma QuotientLead(c: Coefficients, r: Complex)
    requires |c| >= 2
    ensures Quotient(c, r)[0] == c[0]
  {
    hide Times;
    EvalPrefix(c, r, 0);
    EvalNothing(c, r);
    TimesOne(r);
  }

  lemma OtherRoot(v: Complex, z: Complex, r: Complex)
    requires Times(v, Minus(z, r)) == ZERO && z != r
    ensures v == ZERO
  {
    hide Times;
    if v != ZERO { TimesNonzero(v, Minus(z, r)); }
  }

  function ComplexPower(z: Complex, n: nat): Complex {
    if n == 0 then ONE else Times(ComplexPower(z, n - 1), z)
  }

  /** z^n */
  function Monomial(n: nat): (c: Coefficients)
    ensures |c| == n + 1 && c[0] == ONE
  {
    [ONE] + seq(n, _ => ZERO)
  }

  lemma {:induction false} EvalMonomial(n: nat, z: Complex)
    ensures Eval(Monomial(n), z) == ComplexPower(z, n)
  {
    hide Times;
    if n == 0 {
      EvalSingle(ONE, z);
    } else {
      EvalMonomial(n - 1, z);
      assert Monomial(n)[..n] == Monomial(n - 1);
    }
  }

  /** z^n + a */
  function MonomialPlus(n: nat, a: Complex): (c: Coefficients)
    requires n >= 1
    ensures |c| == n + 1 && c[0] == ONE
  {
    Monomial(n - 1) + [a]
  }

  lemma EvalMonomialPlus(n: nat, a: Complex, z: Complex)
    requires n >= 1
    ensures Eval(MonomialPlus(n, a), z) == Plus(ComplexPower(z, n), a)
  {
    hide Times;
    EvalMonomial(n - 1, z);
    assert MonomialPlus(n, a)[..n] == Monomial(n - 1);
  }

  lemma {:induction false} ConjPower(z: Complex, n: nat)
    ensures ComplexPower(Conj(z), n) == Conj(ComplexPower(z, n))
  {
    hide Times;
    if n > 0 {
      ConjPower(z, n - 1);
      ConjTimes(ComplexPower(z, n - 1), z);
    }
  }

  lemma {:induction false} RealPower(x: real, n: nat)
    ensures ComplexPower(Of(x), n) == Of(Power(x, n))
  {
    hide Times;
    if n > 0 {
      RealPower(x, n - 1);
      RealTimes(Power(x, n - 1), x);
    }
  }

  lemma {:induction false} PowerOfTimes(a: Complex, b: Complex, n: nat)
    ensures ComplexPower(Times(a, b), n) == Times(ComplexPower(a, n), ComplexPower(b, n))
  {
    hide Times;
    if n == 0 {
      TimesOne(ONE);
    } else {
      PowerOfTimes(a, b, n - 1);
      TimesSwap(ComplexPower(a, n - 1), ComplexPower(b, n - 1), a, b);
    }
  }

  lemma {:induction false} ProductConcat(a: seq<Complex>, b: seq<Complex>)
    ensures Product(a + b) == Times(Product(a), Product(b))
  {
    hide Times;
    if b == [] {
      assert a + b == a;
      TimesOne(Product(a));
    } else {
      var n := |b| - 1;
      ProductConcat(a, b[..n]);
      assert (a + b)[..|a| + n] == a + b[..n];
      TimesAssoc(Product(a), Product(b[..n]), b[n]);
    }
  }

  lemma {:induction false} ProductOfConjugates(zs: seq<Complex>)
    ensures Product(ConjAll(zs)) == Conj(Product(zs))
  {
    hide Times;
    if zs != [] {
      var n := |zs| - 1;
      ProductOfConjugates(zs[..n]);
      assert ConjAll(zs)[..n] == ConjAll(zs[..n]);
      ConjTimes(Product(zs[..n]), zs[n]);
    }
  }

  lemma {:induction false} NormOfProduct(a: seq<Complex>, b: seq<Complex>)
    requires |a| == |b| && forall i :: 0 <= i < |a| ==> Norm(a[i]) == Norm(b[i])
    ensures Norm(Product(a)) == Norm(Product(b))
  {
    hide Times, Norm;
    if a != [] {
      var n := |a| - 1;
      NormOfProduct(a[..n], b[..n]);
      NormTimes(Product(a[..n]), a[n]);
      NormTimes(Product(b[..n]), b[n]);
    }
  }
}
