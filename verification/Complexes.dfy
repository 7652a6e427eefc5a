/** Complex numbers over the reals, and products of lists of them. */
module Complexes {
  import opened Scalars

  datatype Complex = Complex(re: real, im: real)

  const ZERO := Complex(0.0, 0.0)
  const ONE := Complex(1.0, 0.0)

  function Of(x: real): Complex { Complex(x, 0.0) }
  function Plus(a: Complex, b: Complex): Complex { Complex(a.re + b.re, a.im + b.im) }
  function Minus(a: Complex, b: Complex): Complex { Complex(a.re - b.re, a.im - b.im) }
  function Times(a: Complex, b: Complex): Complex {
    Complex(a.re * b.re - a.im * b.im, a.re * b.im + a.im * b.re)
  }
  function Conj(a: Complex): Complex { Complex(a.re, -a.im) }

  /** The square of the modulus. */
  function Norm(a: Complex): real { Square(a.re) + Square(a.im) }

  function Over(a: Complex, b: Complex): Complex
    requires b != ZERO
  {
    NormPositive(b);
    Complex((a.re * b.re + a.im * b.im) / Norm(b), (a.im * b.re - a.re * b.im) / Norm(b))
  }

  lemma NormPositive(b: Complex)
    ensures Norm(b) >= 0.0 && (b != ZERO <==> Norm(b) > 0.0)
  {
    hide Square;
    SquareSign(b.re);
    SquareSign(b.im);
    assert b == ZERO <==> b.re == 0.0 && b.im == 0.0;
  }

  // ----- field laws -----

  lemma TimesComm(a: Complex, b: Complex)
    ensures Times(a, b) == Times(b, a)
  {
  }

  lemma TimesAssoc(a: Complex, b: Complex, c: Complex)
    ensures Times(Times(a, b), c) == Times(a, Times(b, c))
  {
    var l, r := Times(Times(a, b), c), Times(a, Times(b, c));
    assert l.re == r.re by { RealAssoc(a.re, a.im, b.re, b.im, c.re, c.im); }
    assert l.im == r.im by { RealAssoc(a.re, a.im, b.re, b.im, c.re, c.im); }
  }

  lemma RealAssoc(a: real, p: real, b: real, q: real, c: real, r: real)
    ensures (a * b - p * q) * c - (a * q + p * b) * r == a * (b * c - q * r) - p * (b * r + q * c)
    ensures (a * b - p * q) * r + (a * q + p * b) * c == a * (b * r + q * c) + p * (b * c - q * r)
  {
  }

  lemma TimesPlus(a: Complex, b: Complex, c: Complex)
    ensures Times(a, Plus(b, c)) == Plus(Times(a, b), Times(a, c))
    ensures Times(Plus(b, c), a) == Plus(Times(b, a), Times(c, a))
  {
  }

  lemma TimesMinus(a: Complex, b: Complex, c: Complex)
    ensures Times(a, Minus(b, c)) == Minus(Times(a, b), Times(a, c))
    ensures Times(Minus(b, c), a) == Minus(Times(b, a), Times(c, a))
  {
  }

  lemma TimesOne(a: Complex)
    ensures Times(a, ONE) == a == Times(ONE, a)
    ensures Times(a, ZERO) == ZERO == Times(ZERO, a)
  {
  }

  /** (a b) (c d) == (a c) (b d) */
  lemma TimesSwap(a: Complex, b: Complex, c: Complex, d: Complex)
    ensures Times(Times(a, b), Times(c, d)) == Times(Times(a, c), Times(b, d))
  {
    hide Times;
    TimesAssoc(a, b, Times(c, d));
    TimesAssoc(b, c, d);
    TimesComm(b, c);
    TimesAssoc(c, b, d);
    TimesAssoc(a, c, Times(b, d));
  }

  lemma ConjTimes(a: Complex, b: Complex)
    ensures Conj(Times(a, b)) == Times(Conj(a), Conj(b))
  {
  }

  lemma ConjProduct(a: Complex)
    ensures Times(a, Conj(a)) == Of(Norm(a))
  {
  }

  lemma NormTimes(a: Complex, b: Complex)
    ensures Norm(Times(a, b)) == Norm(a) * Norm(b)
  {
    hide Times, Norm;
    var ab := Times(a, b);
    ConjProduct(ab);
    ConjTimes(a, b);
    TimesSwap(a, b, Conj(a), Conj(b));
    ConjProduct(a);
    ConjProduct(b);
    RealTimes(Norm(a), Norm(b));
  }

  lemma RealTimes(x: real, y: real)
    ensures Times(Of(x), Of(y)) == Of(x * y)
  {
  }

  lemma OverTimes(a: Complex, b: Complex)
    requires b != ZERO
    ensures Times(Over(a, b), b) == a
  {
    NormPositive(b);
    Divided(a.re * b.re + a.im * b.im, a.im * b.re - a.re * b.im, Norm(b), a, b);
  }

  lemma Divided(x: real, y: real, n: real, a: Complex, b: Complex)
    requires n > 0.0 && n == Norm(b)
    requires x == a.re * b.re + a.im * b.im && y == a.im * b.re - a.re * b.im
    ensures Times(Complex(x / n, y / n), b) == a
  {
    var p, q := x / n, y / n;
    assert p * n == x && q * n == y;
    var u, v := p * b.re - q * b.im, p * b.im + q * b.re;
    assert u * n == (p * n) * b.re - (q * n) * b.im;
    assert v * n == (p * n) * b.im + (q * n) * b.re;
    Expanded(a, b);
    CancelFactor(u, a.re, n);
    CancelFactor(v, a.im, n);
  }

  lemma Expanded(a: Complex, b: Complex)
    ensures (a.re * b.re + a.im * b.im) * b.re - (a.im * b.re - a.re * b.im) * b.im == a.re * Norm(b)
    ensures (a.re * b.re + a.im * b.im) * b.im + (a.im * b.re - a.re * b.im) * b.re == a.im * Norm(b)
  {
  }

  lemma CancelScaled(x: Complex, y: Complex, n: real)
    requires n != 0.0 && Complex(x.re * n, x.im * n) == Complex(y.re * n, y.im * n)
    ensures x == y
  {
    var a, b, c, d := x.re * n, x.im * n, y.re * n, y.im * n;
    assert Complex(a, b) == Complex(c, d);
    assert x.re == y.re by { CancelFactor(x.re, y.re, n); }
    assert x.im == y.im by { CancelFactor(x.im, y.im, n); }
  }

  lemma Cancel(x: Complex, y: Complex, b: Complex)
    requires b != ZERO && Times(x, b) == Times(y, b)
    ensures x == y
  {
    hide Times, Norm;
    NormPositive(b);
    TimesAssoc(x, b, Conj(b));
    TimesAssoc(y, b, Conj(b));
    ConjProduct(b);
    TimesReal(x, Norm(b));
    TimesReal(y, Norm(b));
    CancelScaled(x, y, Norm(b));
  }

  lemma TimesReal(a: Complex, x: real)
    ensures Times(a, Of(x)) == Complex(a.re * x, a.im * x)
  {
  }

  lemma ConjOver(a: Complex, b: Complex)
    requires b != ZERO
    ensures Conj(b) != ZERO && Conj(Over(a, b)) == Over(Conj(a), Conj(b))
  {
    hide Times, Over;
    OverTimes(a, b);
    ConjTimes(Over(a, b), b);
    OverTimes(Conj(a), Conj(b));
    Cancel(Conj(Over(a, b)), Over(Conj(a), Conj(b)), Conj(b));
  }

  lemma TimesNonzero(a: Complex, b: Complex)
    requires a != ZERO && b != ZERO
    ensures Times(a, b) != ZERO
  {
    hide Times;
    if Times(a, b) == ZERO {
      TimesOne(b);
      Cancel(a, ZERO, b);
    }
  }

  // ----- products -----

  function Product(zs: seq<Complex>): Complex {
    if zs == [] then ONE else Times(Product(zs[..|zs| - 1]), zs[|zs| - 1])
  }

  lemma {:induction false} ProductPrepend(a: Complex, zs: seq<Complex>)
    ensures Product([a] + zs) == Times(a, Product(zs))
  {
    hide Times;
    if zs == [] {
      assert [a] + zs == [a] && [a][..0] == [];
      TimesOne(a);
      assert Product([]) == ONE;
      assert Product([a]) == Times(Product([]), a);
    } else {
      var init, last := zs[..|zs| - 1], zs[|zs| - 1];
      assert ([a] + zs)[..|zs|] == [a] + init;
      ProductPrepend(a, init);
      TimesAssoc(a, Product(init), last);
    }
  }

  lemma {:induction false} ProductNonzero(zs: seq<Complex>)
    requires forall i :: 0 <= i < |zs| ==> zs[i] != ZERO
    ensures Product(zs) != ZERO
  {
    hide Times;
    if zs != [] {
      ProductNonzero(zs[..|zs| - 1]);
      TimesNonzero(Product(zs[..|zs| - 1]), zs[|zs| - 1]);
    }
  }

  lemma {:induction false} ProductOfProducts(a: seq<Complex>, b: seq<Complex>, c: seq<Complex>)
    requires |a| == |b| == |c| && forall i :: 0 <= i < |a| ==> Times(a[i], b[i]) == c[i]
    ensures Times(Product(a), Product(b)) == Product(c)
  {
    hide Times;
    if a == [] {
      TimesOne(ONE);
    } else {
      var n := |a| - 1;
      ProductOfProducts(a[..n], b[..n], c[..n]);
      TimesSwap(Product(a[..n]), a[n], Product(b[..n]), b[n]);
    }
  }

  // ----- lists closed under conjugation -----

  /** The i-th number from the end is the conjugate of the i-th. */
  predicate Paired(zs: seq<Complex>) {
    forall i :: 0 <= i < |zs| ==> zs[|zs| - 1 - i] == Conj(zs[i])
  }

  function Power(x: real, n: nat): real {
    if n == 0 then 1.0 else x * Power(x, n - 1)
  }

  /** In a paired list the product of the norms is the square of the product, which is real; its
      sign is that of the middle number. */
  lemma {:induction false} PairedProduct(zs: seq<Complex>)
    requires Paired(zs) && (forall i :: 0 <= i < |zs| ==> zs[i] != ZERO)
    requires forall i :: 0 <= i < |zs| && zs[i].im == 0.0 ==> zs[i].re > 0.0
    ensures Product(zs).im == 0.0 && Product(zs).re > 0.0
    decreases |zs|
  {
    hide Times;
    if |zs| == 1 {
      SingleProduct(zs[0]);
      assert zs[1 - 1 - 0] == Conj(zs[0]);
    } else if |zs| >= 2 {
      PeelPair(zs);
      PairedProduct(zs[1..|zs| - 1]);
      NormPositive(zs[0]);
      RealTimes(Norm(zs[0]), Product(zs[1..|zs| - 1]).re);
      MultSign(Norm(zs[0]), Product(zs[1..|zs| - 1]).re);
    }
  }

  lemma SingleProduct(z: Complex)
    ensures Product([z]) == z
  {
    assert [z][..0] == [];
    TimesOne(z);
    assert Product([]) == ONE;
  }

  lemma PeelPair(zs: seq<Complex>)
    requires Paired(zs) && |zs| >= 2
    ensures Product(zs) == Times(Of(Norm(zs[0])), Product(zs[1..|zs| - 1]))
    ensures Paired(zs[1..|zs| - 1])
  {
    hide Times, Product, Norm;
    var n := |zs| - 1;
    var mid := zs[1..n];
    assert zs[..n] == [zs[0]] + mid;
    assert zs[n - 0] == Conj(zs[0]);
    LastFactor(zs);
    ProductPrepend(zs[0], mid);
    TimesComm(zs[0], Product(mid));
    TimesAssoc(Product(mid), zs[0], zs[n]);
    ConjProduct(zs[0]);
    TimesComm(Product(mid), Of(Norm(zs[0])));
    forall i | 0 <= i < |mid| ensures mid[|mid| - 1 - i] == Conj(mid[i]) {
      assert zs[|zs| - 1 - (i + 1)] == Conj(zs[i + 1]);
    }
  }

  lemma LastFactor(zs: seq<Complex>)
    requires zs != []
    ensures Product(zs) == Times(Product(zs[..|zs| - 1]), zs[|zs| - 1])
  {
  }

  /** Paired numbers on a circle, the middle one on the positive axis, multiply to a power of the
      radius. */
  lemma {:induction false} CircleProduct(zs: seq<Complex>, w: real)
    requires Paired(zs) && w > 0.0
    requires forall i :: 0 <= i < |zs| ==> Norm(zs[i]) == w * w && (zs[i].im == 0.0 ==> zs[i].re > 0.0)
    ensures Product(zs) == Of(Power(w, |zs|))
    decreases |zs|
  {
    hide Times, Norm, Power;
    PowerOne(w);
    if |zs| == 1 {
      SingleProduct(zs[0]);
      assert zs[1 - 1 - 0] == Conj(zs[0]);
      RealRoot(zs[0], w);
    } else if |zs| >= 2 {
      PeelPair(zs);
      var mid := zs[1..|zs| - 1];
      CircleProduct(mid, w);
      RealTimes(w * w, Power(w, |mid|));
      PowerTwo(w, |mid|);
    }
  }

  lemma PowerOne(w: real)
    ensures Power(w, 0) == 1.0 && Power(w, 1) == w
  {
    assert Power(w, 1) == w * Power(w, 0);
  }

  lemma PowerTwo(w: real, n: nat)
    ensures Power(w, n + 2) == w * w * Power(w, n)
  {
    var p := Power(w, n);
    assert Power(w, n + 1) == w * p && Power(w, n + 2) == w * (w * p);
  }

  lemma RealRoot(z: Complex, w: real)
    requires z.im == 0.0 && z.re > 0.0 && w > 0.0 && Norm(z) == w * w
    ensures z == Of(w)
  {
    SameSquare(z.re, w);
  }

  lemma SameSquare(x: real, w: real)
    requires x > 0.0 && w > 0.0 && x * x == w * w
    ensures x == w
  {
    assert (x - w) * (x + w) == 0.0;
  }
}
