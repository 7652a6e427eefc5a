/** The magnitude response of the Butterworth filter.

    The poles and their mirror images are all roots of a number, so the denominator has a closed form
    on the imaginary axis; the bilinear map carries it over to the unit circle. */
module FrequencyResponse {
  import opened Scalars
  import opened Complexes
  import opened Polynomials
  import opened Butterworth

  const J := Complex(0.0, 1.0)

  // ----- the unit circle -----

  function Unit(t: Functions, x: real): Complex {
    Complex(t.cos(x), t.sin(x))
  }

  lemma UnitSum(t: Functions, x: real, y: real)
    requires t.Additive()
    ensures Unit(t, x + y) == Times(Unit(t, x), Unit(t, y))
  {
    hide Functions.Additive;
    AddsAt(t, x, y);
  }

  lemma AddsAt(t: Functions, x: real, y: real)
    requires t.Additive()
    ensures t.Adds(x, y)
  {
    hide Functions.Adds;
  }

  lemma UnitQuarter(t: Functions)
    requires t.Additive()
    ensures Unit(t, t.pi / 2.0) == J
  {
    hide Functions.Adds;
  }

  lemma UnitTurns(t: Functions)
    requires t.Additive()
    ensures Unit(t, t.pi / 2.0) == J && Unit(t, t.pi) == Of(-1.0)
    ensures Unit(t, 2.0 * t.pi) == ONE && Unit(t, 0.0) == ONE
  {
    hide Times, Functions.Additive, Unit;
    UnitQuarter(t);
    UnitSum(t, t.pi / 2.0, t.pi / 2.0);
    UnitSum(t, t.pi, t.pi);
    UnitSum(t, 0.0, t.pi / 2.0);
    SmallProducts();
    TimesOne(J);
    Cancel(Unit(t, 0.0), ONE, J);
  }

  lemma SmallProducts()
    ensures Times(J, J) == Of(-1.0) && Times(Of(-1.0), Of(-1.0)) == ONE
  {
  }

  function Multiple(n: nat, x: real): real { n as real * x }

  /** An odd number of half turns. */
  function OddTurns(k: nat, pi: real): real { (2.0 * k as real + 1.0) * pi }

  lemma MultipleSteps(n: nat, x: real)
    ensures Multiple(0, x) == 0.0 && (n > 0 ==> Multiple(n, x) == Multiple(n - 1, x) + x)
  {
  }

  lemma OddTurnSteps(k: nat, pi: real)
    ensures OddTurns(0, pi) == pi && (k > 0 ==> OddTurns(k, pi) == OddTurns(k - 1, pi) + 2.0 * pi)
  {
  }

  lemma {:induction false} UnitPower(t: Functions, x: real, n: nat)
    requires t.Additive()
    ensures ComplexPower(Unit(t, x), n) == Unit(t, Multiple(n, x))
  {
    hide Functions.Additive, Times, Unit, Multiple;
    UnitTurns(t);
    MultipleSteps(n, x);
    if n > 0 {
      UnitPower(t, x, n - 1);
      UnitSum(t, Multiple(n - 1, x), x);
    }
  }

  lemma {:induction false} UnitOdd(t: Functions, k: nat)
    requires t.Additive()
    ensures Unit(t, OddTurns(k, t.pi)) == Of(-1.0)
  {
    hide Functions.Additive, Times, Unit, OddTurns;
    UnitTurns(t);
    OddTurnSteps(k, t.pi);
    if k > 0 {
      UnitOdd(t, k - 1);
      UnitSum(t, OddTurns(k - 1, t.pi), 2.0 * t.pi);
      TimesOne(Of(-1.0));
    }
  }

  // ----- the poles turned by a quarter -----

  /** The angle of pole i less a quarter turn. */
  function TurnedAngle(pi: real, order: nat, i: nat): real
    requires i < order
  {
    PhaseAngle(pi, order, i) - pi / 2.0
  }

  lemma TurnedIs(pi: real, order: nat, i: nat)
    requires i < order && pi > 0.0
    ensures Multiple(2 * order, TurnedAngle(pi, order, i)) == OddTurns(i, pi)
    ensures 0.0 < TurnedAngle(pi, order, i) < pi
  {
    AngleFraction(i, order);
    var f := (2.0 * (i + 1) as real - 1.0) / (2.0 * order as real);
    AngleIs(pi, order, i, f);
    AnglesMirror(pi, order, i);
    var d := 2.0 * order as real;
    assert f * d == 2.0 * i as real + 1.0;
    assert d * (pi * f) == (f * d) * pi;
  }

  lemma TurnedApart(pi: real, order: nat, i: nat, j: nat)
    requires i < j < order && pi > 0.0
    ensures 0.0 < TurnedAngle(pi, order, j) - TurnedAngle(pi, order, i) < 2.0 * pi
  {
    hide TurnedAngle;
    var a, b, n := TurnedAngle(pi, order, i), TurnedAngle(pi, order, j), (2 * order) as real;
    TurnedIs(pi, order, i);
    TurnedIs(pi, order, j);
    Spread(n, a, b, i, j, pi);
  }

  lemma Spread(n: real, a: real, b: real, i: nat, j: nat, pi: real)
    requires n > 0.0 && pi > 0.0 && i < j
    requires n * a == (2.0 * i as real + 1.0) * pi && n * b == (2.0 * j as real + 1.0) * pi
    ensures a < b
  {
    assert n * (b - a) == 2.0 * (j - i) as real * pi;
    MultSign((j - i) as real, pi);
    if b <= a { Scale(b, a, n); }
  }

  function Turned(t: Functions, radius: real, order: nat): (zs: seq<Complex>)
    ensures |zs| == order
  {
    seq(order, i requires 0 <= i < order => Pole(t, radius, TurnedAngle(t.pi, order, i)))
  }

  lemma PoleIs(t: Functions, radius: real, x: real)
    ensures Pole(t, radius, x) == Times(Of(radius), Unit(t, x))
  {
  }

  /** Turning back gives the pole, so the turned one lies above the real axis. */
  lemma TurnedBack(t: Functions, radius: real, order: nat, i: nat)
    requires t.Lawful() && t.Additive() && radius > 0.0 && i < order
    ensures Poles(t, radius, order)[i] == Times(J, Turned(t, radius, order)[i])
    ensures Turned(t, radius, order)[i].im > 0.0
  {
    hide Functions.Lawful, Functions.Additive, Times, Unit, Pole;
    var x, y := TurnedAngle(t.pi, order, i), PhaseAngle(t.pi, order, i);
    PolesArePaired(t, radius, order);
    UnitTurns(t);
    UnitSum(t, t.pi / 2.0, x);
    assert t.pi / 2.0 + x == y;
    PoleIs(t, radius, x);
    PoleIs(t, radius, y);
    TimesAssoc(Of(radius), J, Unit(t, x));
    TimesComm(Of(radius), J);
    TimesAssoc(J, Of(radius), Unit(t, x));
    QuarterTurn(Turned(t, radius, order)[i]);
  }

  lemma QuarterTurn(z: Complex)
    ensures Times(J, z) == Complex(-z.im, z.re)
  {
  }

  /** Every turned pole is a root of z^2N + radius^2N, and so is its conjugate. */
  lemma TurnedIsRoot(t: Functions, radius: real, order: nat, i: nat)
    requires t.Lawful() && t.Additive() && radius > 0.0 && i < order
    ensures ComplexPower(Turned(t, radius, order)[i], 2 * order) == Of(-Power(radius, 2 * order))
    ensures ComplexPower(Conj(Turned(t, radius, order)[i]), 2 * order) == Of(-Power(radius, 2 * order))
  {
    hide Functions.Additive, Times, Unit, Pole, ComplexPower, Power, TurnedAngle, Multiple, OddTurns;
    var n, x := 2 * order, TurnedAngle(t.pi, order, i);
    assert t.pi > 0.0;
    PoleIs(t, radius, x);
    PowerOfTimes(Of(radius), Unit(t, x), n);
    RealPower(radius, n);
    UnitPower(t, x, n);
    TurnedIs(t.pi, order, i);
    UnitOdd(t, i);
    RealTimes(Power(radius, n), -1.0);
    ConjPower(Pole(t, radius, x), n);
  }

  lemma TurnedDistinct(t: Functions, radius: real, order: nat, i: nat, j: nat)
    requires t.Lawful() && t.Additive() && radius > 0.0 && i < j < order
    ensures Turned(t, radius, order)[i] != Turned(t, radius, order)[j]
  {
    hide Functions.Lawful, Times, Unit, Pole, TurnedAngle;
    var x, y := TurnedAngle(t.pi, order, i), TurnedAngle(t.pi, order, j);
    LawfulPi(t);
    TurnedApart(t.pi, order, i, j);
    if Pole(t, radius, x) == Pole(t, radius, y) {
      PoleIs(t, radius, x);
      PoleIs(t, radius, y);
      TimesComm(Of(radius), Unit(t, x));
      TimesComm(Of(radius), Unit(t, y));
      Cancel(Unit(t, x), Unit(t, y), Of(radius));
      UnitSum(t, x, y - x);
      assert x + (y - x) == y;
      NoShortTurn(t, y - x);
      UnitNonzero(t, x);
      TimesOne(Unit(t, x));
      TimesComm(Unit(t, x), Unit(t, y - x));
      Cancel(Unit(t, y - x), ONE, Unit(t, x));
    }
  }

  lemma NoShortTurn(t: Functions, x: real)
    requires t.Additive() && 0.0 < x < 2.0 * t.pi
    ensures Unit(t, x) != ONE
  {
    hide Functions.Adds;
  }

  lemma UnitNonzero(t: Functions, x: real)
    requires t.Lawful()
    ensures Unit(t, x) != ZERO && Norm(Unit(t, x)) == 1.0
  {
    hide Square, Functions.Lawful;
    OnUnitCircle(t, x);
    SquareSign(0.0);
  }

  /** The turned poles and their conjugates are all the roots. */
  lemma RootsOfSum(t: Functions, radius: real, order: nat)
    requires t.Lawful() && t.Additive() && radius > 0.0 && order >= 1
    ensures var zs := Turned(t, radius, order);
            PolyOf(zs + ConjAll(zs)) == MonomialPlus(2 * order, Of(Power(radius, 2 * order)))
  {
    hide Functions.Lawful, Functions.Additive, Times, Unit, Pole, Turned, ComplexPower, Power, PolyOf, Eval;
    hide MonomialPlus;
    var zs, n := Turned(t, radius, order), 2 * order;
    var all, c := zs + ConjAll(zs), MonomialPlus(n, Of(Power(radius, n)));
    forall i | 0 <= i < |all| ensures Eval(c, all[i]) == ZERO {
      TurnedIsRoot(t, radius, order, if i < order then i else i - order);
      EvalMonomialPlus(n, Of(Power(radius, n)), all[i]);
    }
    forall i, j | 0 <= i < j < |all| ensures all[i] != all[j] {
      if j < order {
        TurnedDistinct(t, radius, order, i, j);
      } else if i >= order {
        TurnedDistinct(t, radius, order, i - order, j - order);
      } else {
        TurnedBack(t, radius, order, i);
        TurnedBack(t, radius, order, j - order);
      }
    }
    FactorTheorem(c, all);
  }

  /** The squared distances from a real point to the turned poles multiply to a sum of two powers. */
  lemma TurnedProduct(t: Functions, radius: real, order: nat, w: real)
    requires t.Lawful() && t.Additive() && radius > 0.0 && order >= 1
    ensures Norm(Product(Factors(Turned(t, radius, order), Of(w)))) == Power(w, 2 * order) + Power(radius, 2 * order)
  {
    hide Functions.Lawful, Functions.Additive, Times, Turned, ComplexPower, Power, PolyOf, Eval, MonomialPlus;
    hide Product, Norm, Conj;
    var zs, n := Turned(t, radius, order), 2 * order;
    var fs, all := Factors(zs, Of(w)), zs + ConjAll(zs);
    RootsOfSum(t, radius, order);
    EvalMonomialPlus(n, Of(Power(radius, n)), Of(w));
    RealPower(w, n);
    PolyIsProduct(all, Of(w));
    RealDistance(zs, w);
    ProductConcat(fs, ConjAll(fs));
    ProductOfConjugates(fs);
    ConjProduct(Product(fs));
    assert Of(Norm(Product(fs))) == Plus(Of(Power(w, n)), Of(Power(radius, n)));
  }

  lemma RealDistance(zs: seq<Complex>, w: real)
    ensures Factors(zs + ConjAll(zs), Of(w)) == Factors(zs, Of(w)) + ConjAll(Factors(zs, Of(w)))
  {
    var a, b := Factors(zs + ConjAll(zs), Of(w)), Factors(zs, Of(w)) + ConjAll(Factors(zs, Of(w)));
    forall i | 0 <= i < |a| ensures a[i] == b[i] { }
  }

  // ----- the magnitude response -----

  /** The point of the imaginary axis at frequency w. */
  function At(w: real): Complex { Complex(0.0, w) }

  /** On the imaginary axis the squared magnitude of the denominator is w^2N + radius^2N. */
  lemma DenominatorMagnitude(t: Functions, radius: real, order: nat, w: real)
    requires t.Lawful() && t.Additive() && radius > 0.0 && order >= 1
    ensures Norm(Product(Factors(Poles(t, radius, order), At(w)))) == Power(w, 2 * order) + Power(radius, 2 * order)
  {
    hide Functions.Lawful, Functions.Additive, Times, Turned, Power, Product, Norm, Poles;
    var a, b := Factors(Poles(t, radius, order), At(w)), Factors(Turned(t, radius, order), Of(w));
    forall i | 0 <= i < order ensures Norm(a[i]) == Norm(b[i]) {
      TurnedBack(t, radius, order, i);
      TurnedNorm(Turned(t, radius, order)[i], w);
    }
    NormOfProduct(a, b);
    TurnedProduct(t, radius, order, w);
  }

  lemma TurnedNorm(z: Complex, w: real)
    ensures Norm(Minus(At(w), Times(J, z))) == Norm(Minus(Of(w), z))
  {
    assert Minus(At(w), Times(J, z)) == Complex(z.im, w - z.re);
    NegatedSquare(z.im);
  }

  lemma NegatedSquare(x: real)
    ensures Square(-x) == Square(x)
  {
  }

  lemma {:induction false} EvenPower(x: real, n: nat)
    ensures Power(x, 2 * n) == Square(Power(x, n))
  {
    PowerOne(x);
    if n > 0 {
      EvenPower(x, n - 1);
      PowerTwo(x, 2 * (n - 1));
      Squared(x, Power(x, n - 1), Power(x, 2 * (n - 1)));
    }
  }

  lemma Squared(x: real, p: real, q: real)
    requires q == Square(p)
    ensures x * x * q == Square(x * p)
  {
  }

  lemma {:induction false} PowerPositive(x: real, n: nat)
    requires x > 0.0
    ensures Power(x, n) > 0.0
  {
    if n > 0 {
      PowerPositive(x, n - 1);
      MultSign(x, Power(x, n - 1));
    }
  }

  lemma {:induction false} QuotientPower(x: real, r: real, n: nat)
    requires r != 0.0
    ensures Power(x / r, n) * Power(r, n) == Power(x, n)
  {
    if n > 0 {
      QuotientPower(x, r, n - 1);
      FactorsSwapped(x / r, r, Power(x / r, n - 1), Power(r, n - 1));
    }
  }

  lemma FactorsSwapped(q: real, r: real, p: real, s: real)
    ensures (q * p) * (r * s) == (q * r) * (p * s)
  {
  }

  lemma RealNorm(x: real)
    ensures Norm(Of(x)) == Square(x)
  {
    assert Square(0.0) == 0.0;
  }

  /** The squared gain of the analog filter with numerator radius^N is 1 / (1 + (w / radius)^2N). */
  lemma AnalogResponse(t: Functions, radius: real, order: nat, w: real)
    requires t.Lawful() && t.Additive() && radius > 0.0 && order >= 1
    ensures var d := Norm(Eval(PolyOf(Poles(t, radius, order)), At(w)));
            d > 0.0 && 1.0 + Power(w / radius, 2 * order) > 0.0 &&
            Norm(Of(Power(radius, order))) / d == 1.0 / (1.0 + Power(w / radius, 2 * order))
  {
    hide Functions.Lawful, Functions.Additive, Power, Poles, PolyOf, Eval, Norm, Square, Product;
    var n := 2 * order;
    PolyIsProduct(Poles(t, radius, order), At(w));
    DenominatorMagnitude(t, radius, order, w);
    RealNorm(Power(radius, order));
    EvenPower(radius, order);
    EvenPower(w / radius, order);
    SquareSign(Power(w / radius, order));
    PowerPositive(radius, n);
    QuotientPower(w, radius, n);
    Share(Power(radius, n), Power(w / radius, n), Power(w, n));
  }

  lemma Share(a: real, q: real, b: real)
    requires a > 0.0 && q >= 0.0 && q * a == b
    ensures b + a > 0.0 && a / (b + a) == 1.0 / (1.0 + q)
  {
    MultSign(1.0 + q, a);
    var y := 1.0 / (1.0 + q);
    assert y * (1.0 + q) == 1.0;
    assert y * (b + a) == (y * (1.0 + q)) * a;
    var x := a / (b + a);
    assert x * (b + a) == a;
    CancelFactor(x, y, b + a);
  }

  // ----- the discrete filter -----

  /** Through the bilinear map the discrete filter has the analog response at u. */
  lemma ImageResponse(t: Functions, r: real, order: nat, num: Coefficients, den: Coefficients, z: Complex, u: real)
    requires t.Lawful() && t.Additive() && r > 0.0 && order >= 1
    requires ImageOf(num, den, Poles(t, r, order), Product(Factors(Poles(t, r, order), ZERO)))
    requires Times(At(u), Plus(z, ONE)) == Minus(z, ONE)
    ensures Norm(Eval(num, z)) * (1.0 + Power(u / r, 2 * order)) == Norm(Eval(den, z))
  {
    hide Functions.Lawful, Functions.Additive, Power, Poles, Eval, Norm, Product, Times, Factors;
    var n, ss := 2 * order, Poles(t, r, order);
    var k, p := Product(Factors(ss, ZERO)), Product(Factors(ss, At(u)));
    assert Times(Eval(num, z), p) == Times(k, Eval(den, z));
    NormTimes(Eval(num, z), p);
    NormTimes(k, Eval(den, z));
    DenominatorMagnitude(t, r, order, u);
    DenominatorMagnitude(t, r, order, 0.0);
    assert At(0.0) == ZERO;
    ZeroPower(n);
    PowerPositive(r, n);
    QuotientPower(u, r, n);
    Divide(Norm(Eval(num, z)), Norm(Eval(den, z)), Power(r, n), Power(u / r, n), Power(u, n));
  }

  lemma ZeroPower(n: nat)
    requires n > 0
    ensures Power(0.0, n) == 0.0
  {
  }

  lemma Divide(x: real, y: real, a: real, q: real, b: real)
    requires a > 0.0 && q * a == b && x * (b + a) == a * y
    ensures x * (1.0 + q) == y
  {
    assert (x * (1.0 + q)) * a == y * a;
    CancelFactor(x * (1.0 + q), y, a);
  }

  lemma OnUnitCircle(t: Functions, x: real)
    requires t.Lawful()
    ensures Square(t.cos(x)) + Square(t.sin(x)) == 1.0
  {
    hide Square;
  }

  lemma TangentIs(t: Functions, x: real)
    requires t.Additive() && t.cos(x) != 0.0
    ensures t.tan(x) * t.cos(x) == t.sin(x)
  {
    hide Functions.Adds;
  }

  lemma LeftIsNegative(t: Functions, x: real)
    requires t.Lawful() && t.pi / 2.0 < x < t.pi * 3.0 / 2.0
    ensures t.cos(x) < 0.0
  {
    hide Square;
  }

  lemma TangentAbove(t: Functions, x: real)
    requires t.Lawful() && 0.0 < x < t.pi / 2.0
    ensures t.tan(x) > x
  {
    hide Square;
  }

  /** The bilinear map takes the point of the circle at angle x to the tangent of half the angle. */
  lemma CirclePoint(t: Functions, x: real)
    requires t.Lawful() && t.Additive() && 0.0 <= x < t.pi
    ensures Times(At(t.tan(x / 2.0)), Plus(Unit(t, x), ONE)) == Minus(Unit(t, x), ONE)
  {
    hide Functions.Lawful, Functions.Additive, Times, Square;
    var h := x / 2.0;
    HalfIsRight(t, h);
    OnUnitCircle(t, h);
    TangentIs(t, h);
    UnitSum(t, h, h);
    assert h + h == x;
    HalfAngles(t.cos(h), t.sin(h), t.tan(h), Unit(t, x));
  }

  lemma HalfAngles(c: real, s: real, u: real, z: Complex)
    requires u * c == s && Square(c) + Square(s) == 1.0 && z == Times(Complex(c, s), Complex(c, s))
    ensures Times(At(u), Plus(z, ONE)) == Minus(z, ONE)
  {
    assert z.re + 1.0 == 2.0 * (c * c) && z.im == 2.0 * (c * s) && z.re - 1.0 == -2.0 * (s * s);
    assert u * (2.0 * (c * s)) == 2.0 * ((u * c) * s);
    assert u * (2.0 * (c * c)) == 2.0 * ((u * c) * c);
  }

  /** Below a quarter turn the cosine is positive. */
  lemma HalfIsRight(t: Functions, h: real)
    requires t.Lawful() && t.Additive() && 0.0 <= h < t.pi / 2.0
    ensures t.cos(h) > 0.0
  {
    hide Functions.Lawful, Functions.Additive;
    UnitTurns(t);
    if h > 0.0 {
      UnitSum(t, h, t.pi);
      LawfulPi(t);
      LeftIsNegative(t, h + t.pi);
    }
  }

  /** In the scale of the transformation the pre-warped poles lie on the circle whose radius is the
      tangent of half the cut-off angle. */
  lemma WarpedPoles(t: Functions, cutoff: real, fs: real, order: nat)
    requires t.Lawful() && fs > 0.0
    ensures Warped(Poles(t, RadiusOf(t, cutoff, fs, true), order), true, fs) ==
            Poles(t, t.tan(cutoff / (fs * 2.0)), order)
  {
    hide Functions.Lawful, RadiusOf, PhaseAngle;
    LawfulPi(t);
    WarpedRadius(t, cutoff, fs);
    var r, big := t.tan(cutoff / (fs * 2.0)), RadiusOf(t, cutoff, fs, true);
    forall i | 0 <= i < order
      ensures WarpedRoot(Poles(t, big, order)[i], true, fs) == Poles(t, r, order)[i]
    {
      Unwarp(r, fs, big, t.cos(PhaseAngle(t.pi, order, i)));
      Unwarp(r, fs, big, t.sin(PhaseAngle(t.pi, order, i)));
    }
  }

  lemma Unwarp(r: real, fs: real, big: real, c: real)
    requires fs > 0.0 && big == r * (fs * 2.0)
    ensures big * c / (fs * 2.0) == r * c
  {
    var d := fs * 2.0;
    var q := big * c / d;
    assert q * d == big * c;
    assert (r * c) * d == (r * d) * c;
    CancelFactor(q, r * c, d);
  }

  /** From frequency zero to half the sampling frequency the squared gain at angle x is
      1 / (1 + (tan(x / 2) / tan(c / 2))^2N), where c is the cut-off angle. */
  ghost predicate LowPass(t: Functions, order: nat, num: Coefficients, den: Coefficients, c: real)
    requires t.tan(c / 2.0) != 0.0
  {
    forall x :: 0.0 <= x < t.pi ==>
      Norm(Eval(num, Unit(t, x))) * (1.0 + Power(t.tan(x / 2.0) / t.tan(c / 2.0), 2 * order)) ==
      Norm(Eval(den, Unit(t, x)))
  }

  lemma ImageIsLowPass(t: Functions, cutoff: real, fs: real, order: nat, num: Coefficients, den: Coefficients)
    requires t.Lawful() && t.Additive() && fs > 0.0 && 0.0 < cutoff < t.pi * fs && order >= 1
    requires var ss := Poles(t, t.tan(cutoff / (fs * 2.0)), order);
             ImageOf(num, den, ss, Product(Factors(ss, ZERO)))
    ensures t.tan(cutoff / fs / 2.0) > 0.0 && LowPass(t, order, num, den, cutoff / fs)
  {
    hide Functions.Lawful, Functions.Additive, Power, Poles, Eval, Norm, Product, Times, Factors, ImageOf, Unit;
    hide Square;
    var r := t.tan(cutoff / (fs * 2.0));
    LawfulPi(t);
    HalfAngle(cutoff, fs, t.pi, cutoff / (fs * 2.0));
    Halved(cutoff, fs);
    TangentAbove(t, cutoff / (fs * 2.0));
    forall x | 0.0 <= x < t.pi
      ensures Norm(Eval(num, Unit(t, x))) * (1.0 + Power(t.tan(x / 2.0) / r, 2 * order)) == Norm(Eval(den, Unit(t, x)))
    {
      CirclePoint(t, x);
      ImageResponse(t, r, order, num, den, Unit(t, x), t.tan(x / 2.0));
    }
  }

  lemma Halved(w: real, fs: real)
    requires fs > 0.0
    ensures w / fs / 2.0 == w / (fs * 2.0)
  {
    var a, b := w / fs / 2.0, w / (fs * 2.0);
    assert a * (fs * 2.0) == w && b * (fs * 2.0) == w;
    CancelFactor(a, b, fs * 2.0);
  }

  lemma {:induction false} OnePower(n: nat)
    ensures Power(1.0, n) == 1.0
  {
    if n > 0 { OnePower(n - 1); }
  }

  /** At the cut-off frequency half of the power passes. */
  lemma HalfPowerAtCutOff(t: Functions, order: nat, num: Coefficients, den: Coefficients, c: real)
    requires t.tan(c / 2.0) != 0.0 && 0.0 <= c < t.pi && LowPass(t, order, num, den, c)
    ensures 2.0 * Norm(Eval(num, Unit(t, c))) == Norm(Eval(den, Unit(t, c)))
  {
    hide Norm, Eval, Unit, Power;
    var y := t.tan(c / 2.0);
    assert y / y == 1.0;
    OnePower(2 * order);
  }

  /** A filter prepared with a sampling frequency: its coefficients have the Butterworth response with
      half power exactly at the requested cut-off frequency, which is what pre-warping is for. */
  method Prepare(t: Functions, order: nat, fc: real, fs: real) returns (f: ButterworthFilter)
    requires t.Lawful() && t.Additive() && order >= 1 && 0.0 < fc < fs / 2.0
    ensures fresh(f) && |f.An| == |f.Bn| == order + 1
    ensures var c := fc * 2.0 * t.pi / fs;
            0.0 < c < t.pi && t.tan(c / 2.0) > 0.0 && LowPass(t, order, Reals(f.Bn), Reals(f.An), c) &&
            2.0 * Norm(Eval(Reals(f.Bn), Unit(t, c))) == Norm(Eval(Reals(f.An), Unit(t, c)))
  {
    hide Functions.Lawful, Functions.Additive, Power, Poles, Eval, Norm, Product, Factors, ImageOf, Unit, Warped;
    hide RadiusOf, LowPass, PolyOf, Paired, AllReal, LeftHalf;
    LawfulPi(t);
    f := new ButterworthFilter(t);
    f.SetOrder(order);
    f.SetCutOffFrequency(fc, fs);
    f.ComputeContinuousTimeTF(true);
    f.ComputeDiscreteTimeTF(true);
    ghost var w := f.cutoff;
    assert w == fc * 2.0 * t.pi;
    WarpedPoles(t, w, fs, order);
    ImageIsLowPass(t, w, fs, order, f.dtNumerator, f.dtDenominator);
    CutOffAngle(w, fs, t.pi);
    HalfPowerAtCutOff(t, order, f.dtNumerator, f.dtDenominator, w / fs);
  }

  lemma CutOffAngle(w: real, fs: real, pi: real)
    requires fs > 0.0 && 0.0 < w < pi * fs
    ensures 0.0 < w / fs < pi
  {
    var c := w / fs;
    assert c * fs == w;
    if c <= 0.0 { Scale(c, 0.0, fs); }
    if c >= pi { Scale(pi, c, fs); }
  }
}
