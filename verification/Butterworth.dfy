/** Design of a digital Butterworth filter: analog poles on a circle, their expanded polynomial, and
    the bilinear transformation to a discrete transfer function.

    Trigonometric functions and the square root are parameters with the laws that are used. */
module Butterworth {
  import opened Scalars
  import opened Complexes
  import opened Polynomials

  datatype Functions = Functions(
    pi: real, cos: real -> real, sin: real -> real, tan: real -> real, sqrt: real -> real)
  {
    ghost predicate Lawful() {
      && pi > 0.0
      && (forall x :: Square(cos(x)) + Square(sin(x)) == 1.0)
      && (forall x, y :: x + y == 2.0 * pi ==> cos(x) == cos(y) && sin(x) == -sin(y))
      && (forall x :: pi / 2.0 < x < pi * 3.0 / 2.0 ==> cos(x) < 0.0)
      && (forall x :: 0.0 < x < pi / 2.0 ==> tan(x) > x)
      && (forall x :: x >= 0.0 ==> sqrt(x) >= 0.0 && Square(sqrt(x)) == x)
    }

    /** The addition laws, and what ties the tangent to sine and cosine. */
    ghost predicate Additive() {
      && cos(pi / 2.0) == 0.0 && sin(pi / 2.0) == 1.0
      && (forall x, y :: Adds(x, y))
      && (forall x :: 0.0 < x < 2.0 * pi ==> cos(x) < 1.0)
      && (forall x :: tan(x) * cos(x) == sin(x) || cos(x) == 0.0)
    }

    ghost predicate Adds(x: real, y: real) {
      cos(x + y) == cos(x) * cos(y) - sin(x) * sin(y) && sin(x + y) == cos(x) * sin(y) + sin(x) * cos(y)
    }
  }

  // ----- the analog poles -----

  function PhaseAngle(pi: real, order: nat, i: nat): real
    requires i < order
  {
    pi / 2.0 + pi * (2.0 * (i + 1) as real - 1.0) / (2.0 * order as real)
  }

  lemma AngleFraction(i: nat, order: nat)
    requires i < order
    ensures var f := (2.0 * (i + 1) as real - 1.0) / (2.0 * order as real);
            0.0 < f < 1.0 && f + (2.0 * (order - i) as real - 1.0) / (2.0 * order as real) == 1.0
  {
    var d := 2.0 * order as real;
    var a, b := 2.0 * (i + 1) as real - 1.0, 2.0 * (order - i) as real - 1.0;
    assert a + b == d;
    var f, g := a / d, b / d;
    assert f * d == a && g * d == b;
    SumTimes(f, g, d, a, b);
    CancelFactor(f + g, 1.0, d);
    if f <= 0.0 { Scale(f, 0.0, d); }
    if g <= 0.0 { Scale(g, 0.0, d); }
  }

  lemma SumTimes(f: real, g: real, d: real, a: real, b: real)
    requires f * d == a && g * d == b
    ensures (f + g) * d == a + b
  {
  }

  /** Angles lie strictly inside the left half plane, and mirror angles add up to a full turn. */
  lemma AnglesMirror(pi: real, order: nat, i: nat)
    requires i < order && pi > 0.0
    ensures PhaseAngle(pi, order, i) + PhaseAngle(pi, order, order - 1 - i) == 2.0 * pi
    ensures pi / 2.0 < PhaseAngle(pi, order, i) < pi * 3.0 / 2.0
  {
    AngleFraction(i, order);
    var f := (2.0 * (i + 1) as real - 1.0) / (2.0 * order as real);
    var g := (2.0 * (order - i) as real - 1.0) / (2.0 * order as real);
    AngleIs(pi, order, i, f);
    AngleIs(pi, order, order - 1 - i, g);
    assert pi * f + pi * g == pi * (f + g);
    assert 0.0 < pi * f < pi;
  }

  lemma AngleIs(pi: real, order: nat, i: nat, f: real)
    requires i < order && f == (2.0 * (i + 1) as real - 1.0) / (2.0 * order as real)
    ensures PhaseAngle(pi, order, i) == pi / 2.0 + pi * f
  {
    var d, a := 2.0 * order as real, 2.0 * (i + 1) as real - 1.0;
    assert f * d == a;
    var p := pi * a / d;
    assert p * d == (pi * f) * d;
    CancelFactor(p, pi * f, d);
  }

  /** A pole at the given angle on a circle. */
  function Pole(t: Functions, radius: real, angle: real): Complex {
    Complex(radius * t.cos(angle), radius * t.sin(angle))
  }

  function Poles(t: Functions, radius: real, order: nat): (roots: seq<Complex>)
    ensures |roots| == order
  {
    seq(order, i requires 0 <= i < order => Pole(t, radius, PhaseAngle(t.pi, order, i)))
  }

  predicate LeftHalf(roots: seq<Complex>) {
    forall i :: 0 <= i < |roots| ==> roots[i].re < 0.0
  }

  /** The poles are closed under conjugation, stable, and on the circle. */
  lemma PolesArePaired(t: Functions, radius: real, order: nat)
    requires t.Lawful() && radius > 0.0
    ensures Paired(Poles(t, radius, order)) && LeftHalf(Poles(t, radius, order))
    ensures forall i :: 0 <= i < order ==> Norm(Poles(t, radius, order)[i]) == radius * radius
  {
    var roots := Poles(t, radius, order);
    forall i | 0 <= i < order
      ensures roots[order - 1 - i] == Conj(roots[i])
      ensures roots[i].re < 0.0 && Norm(roots[i]) == radius * radius
    {
      AnglesMirror(t.pi, order, i);
      PolesMirror(t, radius, PhaseAngle(t.pi, order, i), PhaseAngle(t.pi, order, order - 1 - i));
    }
  }

  lemma PolesMirror(t: Functions, radius: real, a: real, b: real)
    requires t.Lawful() && radius > 0.0 && a + b == 2.0 * t.pi && t.pi / 2.0 < a < t.pi * 3.0 / 2.0
    ensures Pole(t, radius, b) == Conj(Pole(t, radius, a))
    ensures Pole(t, radius, a).re < 0.0 && Norm(Pole(t, radius, a)) == radius * radius
  {
    var c, s := t.cos(a), t.sin(a);
    assert t.cos(b) == c && t.sin(b) == -s;
    assert Square(c) + Square(s) == 1.0;
    MultSign(radius, c);
    OnCircle(radius, c, s);
  }

  lemma OnCircle(r: real, c: real, s: real)
    requires Square(c) + Square(s) == 1.0
    ensures Square(r * c) + Square(r * s) == r * r
  {
    assert Square(r * c) == r * r * Square(c);
    assert Square(r * s) == r * r * Square(s);
    assert r * r * Square(c) + r * r * Square(s) == r * r * (Square(c) + Square(s));
  }

  lemma {:induction false} ValueAtZero(c: Coefficients)
    requires c != []
    ensures Eval(c, ZERO) == c[|c| - 1]
  {
    TimesOne(Eval(c[..|c| - 1], ZERO));
  }

  /** The constant coefficient is the radius to the power of the order. */
  lemma AnalogGain(t: Functions, radius: real, order: nat)
    requires t.Lawful() && radius > 0.0
    ensures PolyOf(Poles(t, radius, order))[order] == Of(Power(radius, order))
  {
    hide Poles, Times;
    var roots := Poles(t, radius, order);
    var fs := Factors(roots, ZERO);
    PolesArePaired(t, radius, order);
    ValueAtZero(PolyOf(roots));
    PolyIsProduct(roots, ZERO);
    forall i | 0 <= i < order
      ensures fs[order - 1 - i] == Conj(fs[i]) && Norm(fs[i]) == radius * radius && fs[i].re > 0.0
    {
      assert roots[order - 1 - i] == Conj(roots[i]);
      NormNegated(roots[i]);
    }
    CircleProduct(fs, radius);
  }

  lemma {:induction false} PowerGrows(a: real, b: real, n: nat)
    requires 0.0 < a < b && n >= 1
    ensures 0.0 < Power(a, n) < Power(b, n)
  {
    PowerOne(a);
    PowerOne(b);
    if n >= 2 {
      PowerGrows(a, b, n - 1);
      var p, q := Power(a, n - 1), Power(b, n - 1);
      MultSign(a, p);
      MultSign(a, q - p);
      MultSign(b - a, q);
      assert b * q - a * p == (b - a) * q + a * (q - p);
    }
  }

  /** The numerator is a power of the cut-off frequency, so the analog filter has gain one at
      frequency zero if and only if the poles lie on the circle of that radius. */
  lemma AnalogGainIff(t: Functions, radius: real, order: nat, cutoff: real)
    requires t.Lawful() && radius > 0.0 && cutoff > 0.0
    ensures PolyOf(Poles(t, radius, order))[order] == Of(Power(cutoff, order)) <==> order == 0 || radius == cutoff
  {
    hide Poles, PolyOf, Functions.Lawful, Power;
    AnalogGain(t, radius, order);
    PowerOne(radius);
    PowerOne(cutoff);
    if order >= 1 && radius < cutoff { PowerGrows(radius, cutoff, order); }
    if order >= 1 && radius > cutoff { PowerGrows(cutoff, radius, order); }
  }

  lemma NormNegated(a: Complex)
    ensures Norm(Minus(ZERO, a)) == Norm(a)
  {
  }

  // ----- the bilinear transformation -----

  /** The image of a stable pole, which may be divided since its real part is negative. */
  function Bilinear(s: Complex): Complex
    requires s.re < 0.0
  {
    Over(Plus(ONE, s), Minus(ONE, s))
  }

  lemma BilinearTimes(s: Complex)
    requires s.re < 0.0
    ensures Times(Bilinear(s), Minus(ONE, s)) == Plus(ONE, s)
  {
    hide Over, Times;
    OverTimes(Plus(ONE, s), Minus(ONE, s));
  }

  /** Stable poles go inside the unit circle. */
  lemma BilinearIsStable(s: Complex)
    requires s.re < 0.0
    ensures Norm(Bilinear(s)) < 1.0
  {
    hide Bilinear, Times, Norm;
    BilinearTimes(s);
    NormTimes(Bilinear(s), Minus(ONE, s));
    NormAroundOne(s);
    NormPositive(Minus(ONE, s));
    var n, d := Norm(Bilinear(s)), Norm(Minus(ONE, s));
    if n >= 1.0 { Dominates(n, d); }
  }

  lemma NormAroundOne(s: Complex)
    requires s.re < 0.0
    ensures Norm(Plus(ONE, s)) < Norm(Minus(ONE, s)) && Minus(ONE, s) != ZERO
  {
  }

  lemma BilinearConj(s: Complex)
    requires s.re < 0.0
    ensures Bilinear(Conj(s)) == Conj(Bilinear(s))
  {
    hide Over;
    ConjOver(Plus(ONE, s), Minus(ONE, s));
    assert Conj(Plus(ONE, s)) == Plus(ONE, Conj(s)) && Conj(Minus(ONE, s)) == Minus(ONE, Conj(s));
  }

  /** (z - image of s) (1 - s) == (u - s) (z + 1) where u (z + 1) == z - 1 */
  lemma BilinearFactor(s: Complex, z: Complex, u: Complex)
    requires s.re < 0.0 && Times(u, Plus(z, ONE)) == Minus(z, ONE)
    ensures Times(Minus(z, Bilinear(s)), Minus(ONE, s)) == Times(Minus(u, s), Plus(z, ONE))
  {
    hide Bilinear, Times;
    BilinearTimes(s);
    TimesMinus(Minus(ONE, s), z, Bilinear(s));
    TimesMinus(z, ONE, s);
    TimesMinus(Plus(z, ONE), u, s);
    TimesPlus(s, z, ONE);
    TimesOne(z);
    TimesOne(s);
    TimesComm(z, s);
  }

  function Images(ss: seq<Complex>): (ds: seq<Complex>)
    requires LeftHalf(ss)
    ensures |ds| == |ss|
  {
    seq(|ss|, i requires 0 <= i < |ss| => Bilinear(ss[i]))
  }

  function Repeat(z: Complex, n: nat): (zs: seq<Complex>)
    ensures |zs| == n && forall i :: 0 <= i < n ==> zs[i] == z
  {
    seq(n, _ => z)
  }

  /** The denominator at z times the product of (1 - s) is the analog one at u times (z + 1)^N. */
  lemma ImageProduct(ss: seq<Complex>, z: Complex, u: Complex)
    requires LeftHalf(ss) && Times(u, Plus(z, ONE)) == Minus(z, ONE)
    ensures Times(Product(Factors(Images(ss), z)), Product(Factors(ss, ONE))) ==
            Times(Product(Factors(ss, u)), Product(Repeat(Plus(z, ONE), |ss|)))
  {
    hide Bilinear, Times;
    var both := seq(|ss|, i requires 0 <= i < |ss| => Times(Minus(u, ss[i]), Plus(z, ONE)));
    forall i | 0 <= i < |ss|
      ensures Times(Factors(Images(ss), z)[i], Factors(ss, ONE)[i]) == both[i]
    {
      BilinearFactor(ss[i], z, u);
    }
    ProductOfProducts(Factors(Images(ss), z), Factors(ss, ONE), both);
    ProductOfProducts(Factors(ss, u), Repeat(Plus(z, ONE), |ss|), both);
  }

  lemma ImagesArePaired(ss: seq<Complex>)
    requires LeftHalf(ss) && Paired(ss)
    ensures Paired(Images(ss)) && forall i :: 0 <= i < |ss| ==> Norm(Images(ss)[i]) < 1.0
  {
    hide Bilinear, Norm;
    var ds := Images(ss);
    forall i | 0 <= i < |ss| ensures ds[|ss| - 1 - i] == Conj(ds[i]) && Norm(ds[i]) < 1.0 {
      assert ss[|ss| - 1 - i] == Conj(ss[i]);
      BilinearConj(ss[i]);
      BilinearIsStable(ss[i]);
    }
  }

  /** The product of (1 - r) over paired roots to the left of 1 is real and positive. */
  lemma AtOneIsPositive(roots: seq<Complex>)
    requires Paired(roots) && forall i :: 0 <= i < |roots| ==> roots[i].re < 1.0
    ensures Product(Factors(roots, ONE)).im == 0.0 && Product(Factors(roots, ONE)).re > 0.0
  {
    var fs := Factors(roots, ONE);
    forall i | 0 <= i < |fs| ensures fs[|fs| - 1 - i] == Conj(fs[i]) && fs[i].re > 0.0 {
      assert roots[|roots| - 1 - i] == Conj(roots[i]);
    }
    PairedProduct(fs);
  }

  lemma InsideIsLeftOfOne(a: Complex)
    requires Norm(a) < 1.0
    ensures a.re < 1.0
  {
    hide Square;
    SquareSign(a.im);
    BelowOne(a.re);
  }

  lemma BelowOne(x: real)
    requires Square(x) < 1.0
    ensures x < 1.0
  {
    hide Mult;
    if x >= 1.0 { MultAtLeastOne(x, x); }
  }

  lemma MultAtLeastOne(x: real, y: real)
    requires x >= 1.0 && y >= 1.0
    ensures Mult(x, y) >= 1.0
  {
    assert (x - 1.0) * y >= 0.0;
  }

  /** Zeros at -1: the numerator is the gain times (z + 1)^N. */
  lemma NumeratorValue(order: nat, gain: Complex, z: Complex)
    ensures Eval(ScaleAll(PolyOf(Repeat(Complex(-1.0, 0.0), order)), gain), z) ==
            Times(Product(Repeat(Plus(z, ONE), order)), gain)
  {
    hide Times, PolyOf;
    var zeros := Repeat(Complex(-1.0, 0.0), order);
    EvalScaled(PolyOf(zeros), gain, z);
    PolyIsProduct(zeros, z);
    assert Factors(zeros, z) == Repeat(Plus(z, ONE), order);
  }

  /** The discrete transfer function at z is k over the analog denominator at u = (z - 1)/(z + 1). */
  ghost predicate ImageOf(num: Coefficients, den: Coefficients, ss: seq<Complex>, k: Complex) {
    forall z, u :: Times(u, Plus(z, ONE)) == Minus(z, ONE) ==>
      Times(Eval(num, z), Product(Factors(ss, u))) == Times(k, Eval(den, z))
  }

  lemma GainGivesImage(ss: seq<Complex>, gain: Complex, k: Complex)
    requires LeftHalf(ss) && Times(gain, Product(Factors(ss, ONE))) == k
    ensures ImageOf(ScaleAll(PolyOf(Repeat(Complex(-1.0, 0.0), |ss|)), gain), PolyOf(Images(ss)), ss, k)
  {
    hide Times, PolyOf, ScaleAll, Images, Factors, Product, Repeat, Eval;
    var num := ScaleAll(PolyOf(Repeat(Complex(-1.0, 0.0), |ss|)), gain);
    forall z, u | Times(u, Plus(z, ONE)) == Minus(z, ONE)
      ensures Times(Eval(num, z), Product(Factors(ss, u))) == Times(k, Eval(PolyOf(Images(ss)), z))
    {
      NumeratorValue(|ss|, gain, z);
      PolyIsProduct(Images(ss), z);
      ImageProduct(ss, z, u);
      Rearrange(Product(Repeat(Plus(z, ONE), |ss|)), gain, Product(Factors(ss, u)),
                Product(Factors(ss, ONE)), Product(Factors(Images(ss), z)));
    }
  }

  lemma Rearrange(zn: Complex, g: Complex, e: Complex, p: Complex, d: Complex)
    requires Times(d, p) == Times(e, zn)
    ensures Times(Times(zn, g), e) == Times(Times(g, p), d)
  {
    hide Times;
    TimesComm(zn, g);
    TimesAssoc(g, zn, e);
    TimesComm(zn, e);
    TimesAssoc(g, p, d);
    TimesComm(p, d);
  }

  lemma RealGain(gain: Complex, p: Complex, w: real)
    requires p.im == 0.0 && p.re > 0.0 && Times(gain, p) == Of(w)
    ensures gain.im == 0.0
  {
    assert gain.im * p.re == 0.0;
    CancelFactor(gain.im, 0.0, p.re);
  }

  lemma RealNumerator(order: nat, gain: Complex)
    requires gain.im == 0.0
    ensures AllReal(ScaleAll(PolyOf(Repeat(Complex(-1.0, 0.0), order)), gain))
  {
    hide PolyOf;
    var zeros := Repeat(Complex(-1.0, 0.0), order);
    assert Paired(zeros);
    RealCoefficients(zeros);
  }

  /** Normalising by the sums of the coefficients gives gain one at frequency zero. */
  lemma NormalisedGain(ss: seq<Complex>, gain: Complex)
    requires LeftHalf(ss)
    requires Times(gain, Product(Repeat(Plus(ONE, ONE), |ss|))) == Product(Factors(Images(ss), ONE))
    requires Product(Repeat(Plus(ONE, ONE), |ss|)) != ZERO
    ensures Times(gain, Product(Factors(ss, ONE))) == Product(Factors(ss, ZERO))
  {
    hide Times, Images, Factors, Product, Repeat;
    var zn, p := Product(Repeat(Plus(ONE, ONE), |ss|)), Product(Factors(ss, ONE));
    TimesOne(Plus(ONE, ONE));
    ImageProduct(ss, ONE, ZERO);
    TimesAssoc(gain, zn, p);
    TimesComm(zn, p);
    TimesAssoc(gain, p, zn);
    Cancel(Times(gain, p), Product(Factors(ss, ZERO)), zn);
  }

  lemma TwosPositive(n: nat)
    ensures Product(Repeat(Plus(ONE, ONE), n)).im == 0.0 && Product(Repeat(Plus(ONE, ONE), n)).re > 0.0
  {
    PairedProduct(Repeat(Plus(ONE, ONE), n));
  }

  /** The modulus. */
  function Modulus(t: Functions, a: Complex): real {
    t.sqrt(Norm(a))
  }

  lemma AbsOfPositive(t: Functions, x: real)
    requires t.Lawful() && x > 0.0
    ensures Modulus(t, Of(x)) == x
  {
    var r := t.sqrt(Norm(Of(x)));
    NormPositive(Of(x));
    assert Norm(Of(x)) == Square(x) + Square(0.0);
    assert r >= 0.0 && Square(r) == Square(x);
    PositiveRoots(r, x);
  }

  lemma SameProduct(r: real, x: real)
    requires Square(r) == Square(x)
    ensures (r - x) * (r + x) == 0.0
  {
  }

  lemma ZeroFactor(u: real, n: real)
    requires n != 0.0 && u * n == 0.0
    ensures u == 0.0
  {
  }

  lemma PositiveRoots(r: real, x: real)
    requires r >= 0.0 && x > 0.0 && Square(r) == Square(x)
    ensures r == x
  {
    SameProduct(r, x);
    ZeroFactor(r - x, r + x);
  }

  // ----- the filter -----

  function Reals(xs: seq<real>): (c: Coefficients)
    ensures |c| == |xs|
  {
    seq(|xs|, i requires 0 <= i < |xs| => Of(xs[i]))
  }

  /** The pre-warped frequency. */
  function Fc(t: Functions, cutoff: real, fs: real): real
    requires t.pi > 0.0 && fs > 0.0
  {
    fs / t.pi * t.tan(cutoff / (fs * 2.0))
  }

  /** The radius of the circle of analog poles. */
  function RadiusOf(t: Functions, cutoff: real, fs: real, useSampling: bool): real
    requires t.pi > 0.0 && (useSampling ==> fs > 0.0)
  {
    if useSampling then Fc(t, cutoff, fs) * 2.0 * t.pi else cutoff
  }

  class ButterworthFilter {
    const t: Functions
    var order: nat
    var cutoff: real
    var samplingFrequency: real

    var phaseAngles: seq<real>
    var ctRoots: seq<Complex>
    var ctDenominator: Coefficients
    var ctNumerator: real

    var dtGain: Complex
    var dtRoots: seq<Complex>
    var dtZeros: seq<Complex>
    var dtDenominator: Coefficients
    var dtNumerator: Coefficients
    var An: seq<real>
    var Bn: seq<real>

    constructor (t: Functions)
      ensures this.t == t && order == 1 && cutoff == 0.0 && samplingFrequency == 1.0
    {
      this.t := t;
      order, cutoff, samplingFrequency := 1, 0.0, 1.0;
      new;
    }

    /** A positive cut-off frequency, below half the sampling frequency when that is used. */
    ghost predicate Specified(useSampling: bool)
      reads this
    {
      t.Lawful() && cutoff > 0.0 &&
      (useSampling ==> samplingFrequency > 0.0 && cutoff < t.pi * samplingFrequency)
    }

    function Radius(useSampling: bool): real
      reads this
      requires t.Lawful() && (useSampling ==> samplingFrequency > 0.0)
    {
      RadiusOf(t, cutoff, samplingFrequency, useSampling)
    }

    method SetOrder(n: nat)
      modifies `order
      ensures order == n
    {
      order := n;
    }

    /** Frequencies in Hz; rejected unless below half the sampling frequency. */
    method SetCutOffFrequency(fc: real, fs: real)
      requires t.Lawful()
      modifies `cutoff, `samplingFrequency
      ensures fc >= fs / 2.0 ==> cutoff == old(cutoff) && samplingFrequency == old(samplingFrequency)
      ensures fc < fs / 2.0 ==> cutoff == fc * 2.0 * t.pi && samplingFrequency == fs
      ensures 0.0 < fc < fs / 2.0 ==> Specified(true)
    {
      if fc >= fs / 2.0 { return; }
      cutoff := fc * 2.0 * t.pi;
      samplingFrequency := fs;
      BelowNyquist(fc, fs, t.pi);
    }

    method ComputePhaseAngles()
      modifies `phaseAngles
      ensures |phaseAngles| == order
      ensures forall i :: 0 <= i < order ==> phaseAngles[i] == PhaseAngle(t.pi, order, i)
    {
      phaseAngles := seq(order, _ => 0.0);
      var i := 0;
      while i < |phaseAngles|
        invariant 0 <= i <= |phaseAngles| == order
        invariant forall k :: 0 <= k < i ==> phaseAngles[k] == PhaseAngle(t.pi, order, k)
      {
        phaseAngles := phaseAngles[i := PhaseAngle(t.pi, order, i)];
        i := i + 1;
      }
    }

    method ComputeContinuousTimeRoots(useSampling: bool)
      requires Specified(useSampling) && |phaseAngles| == order
      requires forall i :: 0 <= i < order ==> phaseAngles[i] == PhaseAngle(t.pi, order, i)
      modifies `ctRoots
      ensures ctRoots == Poles(t, Radius(useSampling), order)
    {
      hide PhaseAngle, Fc, RadiusOf, Pole, Poles, Functions.Lawful;
      LawfulPi(t);
      if useSampling { PrewarpedRoots(); } else { PlainRoots(); }
      PolesFrom(t, Radius(useSampling), order, phaseAngles, ctRoots);
    }

    method PrewarpedRoots()
      requires t.pi > 0.0 && samplingFrequency > 0.0 && |phaseAngles| == order
      modifies `ctRoots
      ensures |ctRoots| == order
      ensures forall k :: 0 <= k < order ==>
        ctRoots[k] == Pole(t, RadiusOf(t, cutoff, samplingFrequency, true), phaseAngles[k])
    {
      hide Fc, RadiusOf, Pole;
      ghost var radius := RadiusOf(t, cutoff, samplingFrequency, true);
      ctRoots := seq(order, _ => ZERO);
      var fc := Fc(t, cutoff, samplingFrequency);
      var i := 0;
      while i < |ctRoots|
        invariant 0 <= i <= |ctRoots| == order
        invariant forall k :: 0 <= k < i ==> ctRoots[k] == Pole(t, radius, phaseAngles[k])
      {
        PrewarpedPole(t, cutoff, samplingFrequency, phaseAngles[i], fc);
        ctRoots := ctRoots[i := Complex(t.cos(phaseAngles[i]) * fc * 2.0 * t.pi,
                                        t.sin(phaseAngles[i]) * fc * 2.0 * t.pi)];
        i := i + 1;
      }
    }

    method PlainRoots()
      requires t.pi > 0.0 && |phaseAngles| == order
      modifies `ctRoots
      ensures |ctRoots| == order
      ensures forall k :: 0 <= k < order ==>
        ctRoots[k] == Pole(t, RadiusOf(t, cutoff, samplingFrequency, false), phaseAngles[k])
    {
      hide Fc, RadiusOf, Pole;
      ghost var radius := RadiusOf(t, cutoff, samplingFrequency, false);
      ctRoots := seq(order, _ => ZERO);
      var i := 0;
      while i < |ctRoots|
        invariant 0 <= i <= |ctRoots| == order
        invariant forall k :: 0 <= k < i ==> ctRoots[k] == Pole(t, radius, phaseAngles[k])
      {
        PlainPole(t, cutoff, samplingFrequency, phaseAngles[i]);
        ctRoots := ctRoots[i := Complex(cutoff * t.cos(phaseAngles[i]), cutoff * t.sin(phaseAngles[i]))];
        i := i + 1;
      }
    }

    /** What the discrete design needs of the analog one. */
    ghost predicate Analog()
      reads this
    {
      t.Lawful() && |ctRoots| == order && Paired(ctRoots) && LeftHalf(ctRoots)
    }

    /** The denominator is the polynomial of the poles, its coefficients are real, and the gain at
        frequency zero is one if and only if there is no pre-warping. */
    method ComputeContinuousTimeTF(useSampling: bool)
      requires Specified(useSampling)
      modifies `phaseAngles, `ctRoots, `ctDenominator, `ctNumerator
      ensures Analog() && ctRoots == Poles(t, Radius(useSampling), order)
      ensures ctDenominator == PolyOf(ctRoots) && AllReal(ctDenominator)
      ensures ctNumerator == Power(cutoff, order)
      ensures ctDenominator[order] == Of(ctNumerator) <==> order == 0 || !useSampling
    {
      hide PolyOf, Poles, Paired, AllReal, RadiusOf, PhaseAngle, LeftHalf, Functions.Lawful;
      ComputePhaseAngles();
      ComputeContinuousTimeRoots(useSampling);
      RadiusPositive(t, cutoff, samplingFrequency, useSampling);
      PolesArePaired(t, Radius(useSampling), order);
      RealCoefficients(ctRoots);
      ctDenominator := Poly(ctRoots);
      ctNumerator := Power(cutoff, order);
      AnalogGainIff(t, Radius(useSampling), order, cutoff);
    }

    /** The coefficients of the discrete transfer function are real, so taking real parts loses
        nothing; its poles are stable, and it is the bilinear image of the analog one. */
    method ComputeDiscreteTimeTF(useSampling: bool)
      requires Analog() && (useSampling ==> samplingFrequency > 0.0)
      modifies `dtGain, `dtRoots, `dtZeros, `dtDenominator, `dtNumerator, `An, `Bn
      ensures |dtRoots| == order && |An| == |Bn| == order + 1
      ensures dtDenominator == PolyOf(dtRoots) == Reals(An) && dtNumerator == Reals(Bn)
      ensures Paired(dtRoots) && forall i :: 0 <= i < order ==> Norm(dtRoots[i]) < 1.0
      ensures var ss := Warped(ctRoots, useSampling, samplingFrequency);
              ImageOf(dtNumerator, dtDenominator, ss,
                      if useSampling then Product(Factors(ss, ZERO)) else Of(ctNumerator))
    {
      hide Times, Product, Factors, Repeat, Images, PolyOf, Sum, Eval, Over, Functions.Lawful, Modulus, Norm;
      hide LeftHalf, Paired, Warped, WarpedRoot, Bilinear, AllReal, ImageOf, ScaleAll, Reals;
      ghost var ss := Warped(ctRoots, useSampling, samplingFrequency);
      WarpedStable(t, order, ctRoots, useSampling, samplingFrequency);
      dtZeros := Repeat(Complex(-1.0, 0.0), order);
      dtGain := Of(ctNumerator);
      if useSampling {
        ComputeDiscreteRoots(useSampling);
        dtDenominator := Poly(dtRoots);
        dtNumerator := Poly(dtZeros);
        NormalisedGainIs(t, ss, dtRoots, dtDenominator, dtNumerator);
        dtGain := Of(Modulus(t, Over(Sum(dtDenominator), Sum(dtNumerator))));
        OfIsReal(dtGain, Modulus(t, Over(Sum(dtDenominator), Sum(dtNumerator))));
      } else {
        ComputeDiscreteRoots(useSampling);
        dtGain := DividedGain(ctRoots, ctNumerator);
        WarpedIsSame(ctRoots, samplingFrequency);
        dtDenominator := Poly(dtRoots);
        dtNumerator := Poly(dtZeros);
      }
      GainGivesImage(ss, dtGain, if useSampling then Product(Factors(ss, ZERO)) else Of(ctNumerator));
      RealNumerator(order, dtGain);
      ImagesArePaired(ss);
      RealCoefficients(dtRoots);
      ScaleNumerator();
      TakeDenominator();
    }

    method ComputeDiscreteRoots(useSampling: bool)
      requires Analog() && (useSampling ==> samplingFrequency > 0.0)
      modifies `dtRoots
      ensures LeftHalf(Warped(ctRoots, useSampling, samplingFrequency))
      ensures dtRoots == Images(Warped(ctRoots, useSampling, samplingFrequency))
    {
      hide Times, Product, Factors, Repeat, Images, PolyOf, Sum, Eval, Over, Functions.Lawful, Modulus, Norm;
      hide LeftHalf, Paired, Warped, WarpedRoot, Bilinear, AllReal, ImageOf, ScaleAll, Reals;
      ghost var ss := Warped(ctRoots, useSampling, samplingFrequency);
      WarpedStable(t, order, ctRoots, useSampling, samplingFrequency);
      dtRoots := Repeat(ZERO, order);
      var i := 0;
      while i < order
        invariant 0 <= i <= order == |dtRoots|
        invariant forall k :: 0 <= k < i ==> dtRoots[k] == Images(ss)[k]
      {
        var s := WarpedRoot(ctRoots[i], useSampling, samplingFrequency);
        WarpedEntry(ctRoots, useSampling, samplingFrequency, i);
        dtRoots := dtRoots[i := Bilinear(s)];
        i := i + 1;
      }
    }

    /** Multiplies the numerator by the gain and keeps the real parts. */
    method ScaleNumerator()
      requires |dtNumerator| == order + 1 && AllReal(ScaleAll(dtNumerator, dtGain))
      modifies `dtNumerator, `Bn
      ensures dtNumerator == ScaleAll(old(dtNumerator), dtGain) && |Bn| == order + 1 && dtNumerator == Reals(Bn)
    {
      hide Times;
      Bn := seq(order + 1, _ => 0.0);
      var i := 0;
      while i < |dtNumerator|
        invariant 0 <= i <= |dtNumerator| == order + 1 == |Bn|
        invariant forall k :: 0 <= k < i ==> dtNumerator[k] == ScaleAll(old(dtNumerator), dtGain)[k]
        invariant forall k :: 0 <= k < i ==> Bn[k] == dtNumerator[k].re
        invariant forall k :: i <= k <= order ==> dtNumerator[k] == old(dtNumerator)[k]
      {
        dtNumerator := dtNumerator[i := Times(dtNumerator[i], dtGain)];
        Bn := Bn[i := dtNumerator[i].re];
        i := i + 1;
      }
    }

    method TakeDenominator()
      requires |dtDenominator| == order + 1 && AllReal(dtDenominator)
      modifies `An
      ensures |An| == order + 1 && dtDenominator == Reals(An)
    {
      An := seq(order + 1, _ => 0.0);
      var i := 0;
      while i < |dtDenominator|
        invariant 0 <= i <= order + 1 == |An|
        invariant forall k :: 0 <= k < i ==> An[k] == dtDenominator[k].re
      {
        An := An[i := dtDenominator[i].re];
        i := i + 1;
      }
    }

    /** The numerator divided by (1 - s) for every pole, as the transformation loop does. */
    static method DividedGain(roots: seq<Complex>, numerator: real) returns (gain: Complex)
      requires LeftHalf(roots) && Paired(roots)
      ensures Times(gain, Product(Factors(roots, ONE))) == Of(numerator) && gain.im == 0.0
    {
      hide Times, Product, Over, Paired;
      gain := Of(numerator);
      ghost var fs := Factors(roots, ONE);
      TimesOne(gain);
      assert fs[..0] == [];
      EmptyProduct();
      var i := 0;
      while i < |roots|
        invariant 0 <= i <= |roots|
        invariant Times(gain, Product(fs[..i])) == Of(numerator)
      {
        assert fs[..i + 1][..i] == fs[..i];
        LastFactor(fs[..i + 1]);
        GainStep(gain, Product(fs[..i]), fs[i]);
        gain := Over(gain, Minus(ONE, roots[i]));
        i := i + 1;
      }
      assert fs[..|roots|] == fs;
      AtOneIsPositive(roots);
      RealGain(gain, Product(fs), numerator);
    }
  }

  const TD := 2.0

  /** The analog pole in the scale of the transformation. */
  function WarpedRoot(s: Complex, useSampling: bool, fs: real): Complex
    requires useSampling ==> fs > 0.0
  {
    if useSampling then Complex(s.re / (fs * 2.0), s.im / (fs * 2.0))
    else Complex(TD * s.re / 2.0, TD * s.im / 2.0)
  }

  function Warped(roots: seq<Complex>, useSampling: bool, fs: real): (ss: seq<Complex>)
    requires useSampling ==> fs > 0.0
    ensures |ss| == |roots|
  {
    seq(|roots|, i requires 0 <= i < |roots| => WarpedRoot(roots[i], useSampling, fs))
  }

  lemma WarpedIsSame(roots: seq<Complex>, fs: real)
    ensures Warped(roots, false, fs) == roots
  {
  }

  lemma WarpedStable(t: Functions, order: nat, roots: seq<Complex>, useSampling: bool, fs: real)
    requires (useSampling ==> fs > 0.0) && |roots| == order && Paired(roots) && LeftHalf(roots)
    ensures Paired(Warped(roots, useSampling, fs)) && LeftHalf(Warped(roots, useSampling, fs))
  {
    hide WarpedRoot;
    var ss := Warped(roots, useSampling, fs);
    forall i | 0 <= i < order ensures ss[i].re < 0.0 && ss[order - 1 - i] == Conj(ss[i]) {
      assert roots[order - 1 - i] == Conj(roots[i]) && roots[i].re < 0.0;
      WarpedSign(roots[i], useSampling, fs);
    }
  }

  lemma WarpedSign(s: Complex, useSampling: bool, fs: real)
    requires (useSampling ==> fs > 0.0) && s.re < 0.0
    ensures WarpedRoot(s, useSampling, fs).re < 0.0
    ensures WarpedRoot(Conj(s), useSampling, fs) == Conj(WarpedRoot(s, useSampling, fs))
  {
    if useSampling {
      var d := fs * 2.0;
      var p, q, r := s.re / d, s.im / d, (-s.im) / d;
      assert p * d == s.re && q * d == s.im && r * d == -s.im;
      if p >= 0.0 { Scale(0.0, p, d); }
      CancelFactor(r, -q, d);
    }
  }

  lemma WarpedEntry(roots: seq<Complex>, useSampling: bool, fs: real, i: nat)
    requires (useSampling ==> fs > 0.0) && i < |roots| && LeftHalf(Warped(roots, useSampling, fs))
    ensures WarpedRoot(roots[i], useSampling, fs).re < 0.0
    ensures Images(Warped(roots, useSampling, fs))[i] == Bilinear(WarpedRoot(roots[i], useSampling, fs))
  {
    hide Bilinear, WarpedRoot;
    assert Warped(roots, useSampling, fs)[i] == WarpedRoot(roots[i], useSampling, fs);
  }

  lemma OfIsReal(a: Complex, x: real)
    requires a == Of(x)
    ensures a.im == 0.0
  {
  }

  lemma EmptyProduct()
    ensures Product([]) == ONE
  {
  }

  lemma GainStep(g: Complex, p: Complex, f: Complex)
    requires f != ZERO
    ensures Times(Over(g, f), Times(p, f)) == Times(g, p)
  {
    hide Times, Over;
    OverTimes(g, f);
    TimesComm(p, f);
    TimesAssoc(Over(g, f), f, p);
  }

  /** The modulus of the quotient of the coefficient sums is the quotient itself. */
  lemma NormalisedGainIs(t: Functions, ss: seq<Complex>, drs: seq<Complex>, den: Coefficients, num: Coefficients)
    requires t.Lawful() && LeftHalf(ss) && Paired(ss) && drs == Images(ss)
    requires den == PolyOf(drs) && num == PolyOf(Repeat(Complex(-1.0, 0.0), |ss|))
    ensures Sum(num) != ZERO
    ensures Times(Of(Modulus(t, Over(Sum(den), Sum(num)))), Product(Factors(ss, ONE))) == Product(Factors(ss, ZERO))
  {
    hide Times, Product, Factors, Repeat, Images, PolyOf, Sum, Eval, Over, Functions.Lawful, Modulus, Norm, LeftHalf;
    var zn := Product(Repeat(Plus(ONE, ONE), |ss|));
    SumIsEval(den);
    SumIsEval(num);
    PolyIsProduct(drs, ONE);
    PlainNumerator(|ss|, ONE);
    TwosPositive(|ss|);
    ImagesArePaired(ss);
    forall i | 0 <= i < |drs| ensures drs[i].re < 1.0 { InsideIsLeftOfOne(drs[i]); }
    AtOneIsPositive(drs);
    PositiveQuotient(t, Sum(den), Sum(num));
    NormalisedGain(ss, Of(Modulus(t, Over(Sum(den), Sum(num)))));
  }

  lemma PlainNumerator(order: nat, z: Complex)
    ensures Eval(PolyOf(Repeat(Complex(-1.0, 0.0), order)), z) == Product(Repeat(Plus(z, ONE), order))
  {
    hide Times, PolyOf;
    PolyIsProduct(Repeat(Complex(-1.0, 0.0), order), z);
    assert Factors(Repeat(Complex(-1.0, 0.0), order), z) == Repeat(Plus(z, ONE), order);
  }

  lemma PositiveQuotient(t: Functions, a: Complex, b: Complex)
    requires t.Lawful() && a.im == 0.0 && a.re > 0.0 && b.im == 0.0 && b.re > 0.0
    ensures b != ZERO && Times(Of(Modulus(t, Over(a, b))), b) == a
  {
    hide Over, Modulus, Functions.Lawful;
    OverTimes(a, b);
    var q := Over(a, b);
    assert q.re * b.re == a.re && q.im * b.re == 0.0;
    ZeroFactor(q.im, b.re);
    if q.re <= 0.0 { Scale(q.re, 0.0, b.re); }
    AbsOfPositive(t, q.re);
  }

  /** Gain one at frequency zero: at z = 1 both sums agree. */
  lemma UnitGain(num: Coefficients, den: Coefficients, ss: seq<Complex>)
    requires LeftHalf(ss) && ImageOf(num, den, ss, Product(Factors(ss, ZERO)))
    ensures Sum(num) == Sum(den)
  {
    hide Times, Product, Eval, Sum;
    SumIsEval(num);
    SumIsEval(den);
    var k := Product(Factors(ss, ZERO));
    TimesOne(Plus(ONE, ONE));
    assert Times(ZERO, Plus(ONE, ONE)) == Minus(ONE, ONE);
    assert Times(Eval(num, ONE), k) == Times(k, Eval(den, ONE));
    TimesComm(k, Eval(den, ONE));
    ProductNonzero(Factors(ss, ZERO));
    Cancel(Eval(num, ONE), Eval(den, ONE), k);
  }

  lemma BelowNyquist(fc: real, fs: real, pi: real)
    requires pi > 0.0 && fc < fs / 2.0
    ensures 0.0 < fc ==> 0.0 < fc * 2.0 * pi < pi * fs
  {
    if 0.0 < fc {
      assert fc * 2.0 * pi == (fc * 2.0) * pi;
      assert (fs - fc * 2.0) * pi > 0.0;
    }
  }

  lemma PrewarpedPole(t: Functions, cutoff: real, fs: real, angle: real, fc: real)
    requires t.pi > 0.0 && fs > 0.0 && fc == Fc(t, cutoff, fs)
    ensures Complex(t.cos(angle) * fc * 2.0 * t.pi, t.sin(angle) * fc * 2.0 * t.pi) ==
            Pole(t, RadiusOf(t, cutoff, fs, true), angle)
  {
    hide Fc;
    Regroup(t.cos(angle), fc, t.pi, RadiusOf(t, cutoff, fs, true));
    Regroup(t.sin(angle), fc, t.pi, RadiusOf(t, cutoff, fs, true));
  }

  lemma LawfulPi(t: Functions)
    requires t.Lawful()
    ensures t.pi > 0.0
  {
  }

  lemma PolesFrom(t: Functions, radius: real, order: nat, angles: seq<real>, roots: seq<Complex>)
    requires |angles| == |roots| == order
    requires forall k :: 0 <= k < order ==> angles[k] == PhaseAngle(t.pi, order, k)
    requires forall k :: 0 <= k < order ==> roots[k] == Pole(t, radius, angles[k])
    ensures roots == Poles(t, radius, order)
  {
    hide PhaseAngle, Pole;
  }

  lemma PlainPole(t: Functions, cutoff: real, fs: real, angle: real)
    requires t.pi > 0.0
    ensures Complex(cutoff * t.cos(angle), cutoff * t.sin(angle)) == Pole(t, RadiusOf(t, cutoff, fs, false), angle)
    ensures RadiusOf(t, cutoff, fs, false) == cutoff
  {
  }

  lemma Regroup(c: real, f: real, pi: real, r: real)
    requires r == f * 2.0 * pi
    ensures c * f * 2.0 * pi == r * c
  {
  }

  /** Pre-warping puts the poles on a larger circle. */
  lemma RadiusPositive(t: Functions, cutoff: real, fs: real, useSampling: bool)
    requires t.Lawful() && cutoff > 0.0 && (useSampling ==> fs > 0.0 && cutoff < t.pi * fs)
    ensures RadiusOf(t, cutoff, fs, useSampling) > 0.0
    ensures if useSampling then RadiusOf(t, cutoff, fs, useSampling) > cutoff
            else RadiusOf(t, cutoff, fs, useSampling) == cutoff
  {
    if useSampling {
      var x := cutoff / (fs * 2.0);
      HalfAngle(cutoff, fs, t.pi, x);
      WarpedRadius(t, cutoff, fs);
      assert x * (fs * 2.0) == cutoff;
      MultSign(t.tan(x) - x, fs * 2.0);
    }
  }

  lemma WarpedRadius(t: Functions, cutoff: real, fs: real)
    requires t.pi > 0.0 && fs > 0.0
    ensures RadiusOf(t, cutoff, fs, true) == t.tan(cutoff / (fs * 2.0)) * (fs * 2.0)
  {
    Unscaled(fs, t.pi, t.tan(cutoff / (fs * 2.0)));
  }

  lemma Unscaled(fs: real, pi: real, y: real)
    requires pi > 0.0
    ensures fs / pi * y * 2.0 * pi == y * (fs * 2.0)
  {
    var q := fs / pi;
    assert q * pi == fs;
    assert q * y * 2.0 * pi == (q * pi) * y * 2.0;
  }

  lemma HalfAngle(w: real, fs: real, pi: real, x: real)
    requires fs > 0.0 && 0.0 < w < pi * fs && x == w / (fs * 2.0)
    ensures 0.0 < x < pi / 2.0
  {
    assert x * (fs * 2.0) == w;
    if x >= pi / 2.0 { Scale(pi / 2.0, x, fs * 2.0); }
    if x <= 0.0 { Scale(x, 0.0, fs * 2.0); }
  }

  lemma Scale(a: real, b: real, s: real)
    requires a <= b && s >= 0.0
    ensures a * s <= b * s
  {
    assert (b - a) * s >= 0.0;
  }
}
