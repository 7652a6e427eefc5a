/** Akima interpolation: cubic pieces with a chosen slope in every knot.

    Unlike the natural spline its first derivative is continuous for every spacing. */
module Akima {
  import opened Wrappers
  import opened Scalars
  import opened InterpolationUtils
  import opened Spline

  const AKIMA_EPSILON := 0.00001

  /** The weighted mean of the two slopes next to an inner knot. */
  function Blended(before: real, left: real, right: real, after: real): real {
    var denom := Abs(after - right) + Abs(left - before);
    if denom < AKIMA_EPSILON then (left + right) / 2.0
    else (Abs(after - right) * left + Abs(left - before) * right) / denom
  }

  /** The slope in knot i. */
  function KnotSlope(m: seq<real>, i: nat): real
    requires |m| >= 1 && i <= |m|
  {
    if i == 0 then m[0]
    else if i == |m| then m[|m| - 1]
    else if i == 1 || i == |m| - 1 then (m[i - 1] + m[i]) / 2.0
    else Blended(m[i - 2], m[i - 1], m[i], m[i + 1])
  }

  /** In an inner knot the slope divides the difference of its two neighbours in the ratio in which the
      slopes change beyond them; where they hardly change it is halfway. */
  lemma BlendedBalances(before: real, left: real, right: real, after: real)
    ensures var s, x, y := Blended(before, left, right, after), Abs(after - right), Abs(left - before);
            if x + y < 0.00001 then s - left == right - s else (s - left) * x == (right - s) * y
  {
    var x, y := Abs(after - right), Abs(left - before);
    if x + y >= AKIMA_EPSILON {
      var s := Blended(before, left, right, after);
      assert s * (x + y) == x * left + y * right;
    }
  }

  /** Both end knots have the slope of their piece, their neighbours the mean of two. */
  lemma EndSlopes(m: seq<real>)
    requires |m| >= 1
    ensures KnotSlope(m, 0) == m[0] && KnotSlope(m, |m|) == m[|m| - 1]
    ensures |m| >= 2 ==>
      KnotSlope(m, 1) == (m[0] + m[1]) / 2.0 && KnotSlope(m, |m| - 1) == (m[|m| - 2] + m[|m| - 1]) / 2.0
  {
    hide Blended;
  }

  lemma InnerSlope(m: seq<real>, i: nat)
    requires 2 <= i < |m| - 1
    ensures KnotSlope(m, i) == Blended(m[i - 2], m[i - 1], m[i], m[i + 1])
  {
    hide Blended;
  }

  function Slopes(keys: seq<real>, values: seq<real>): (m: seq<real>)
    requires Separated(keys) && |keys| == |values| >= 2
    ensures |m| == |keys| - 1
  {
    seq(|keys| - 1, i requires 0 <= i < |keys| - 1 => Slope(keys, values, i))
  }

  function CubeCoef(h: real, m: real, s: real, next: real): real
    requires h != 0.0
  {
    SquareSign(h);
    (s + next - 2.0 * m) / Square(h)
  }

  function SquareCoef(h: real, m: real, s: real, next: real): real
    requires h != 0.0
  {
    (3.0 * m - 2.0 * s - next) / h
  }

  function AkimaOf(keys: seq<real>, values: seq<real>): (c: MultiSplineCoef)
    requires Separated(keys) && |keys| == |values| >= 2
    ensures c.Sized(|keys| - 1)
  {
    var m, n := Slopes(keys, values), |keys| - 1;
    MultiSplineCoef(
      seq(n, i requires 0 <= i < n =>
        HNonzero(keys, i); CubeCoef(H(keys, i), m[i], KnotSlope(m, i), KnotSlope(m, i + 1))),
      seq(n, i requires 0 <= i < n =>
        HNonzero(keys, i); SquareCoef(H(keys, i), m[i], KnotSlope(m, i), KnotSlope(m, i + 1))),
      seq(n, i requires 0 <= i < n => KnotSlope(m, i)),
      seq(n, i requires 0 <= i < n => values[i]))
  }

  // ----- ends of the pieces -----

  lemma CubeTimes(h: real, m: real, s: real, next: real)
    requires h != 0.0
    ensures CubeCoef(h, m, s, next) * h * h == s + next - 2.0 * m
    ensures SquareCoef(h, m, s, next) * h == 3.0 * m - 2.0 * s - next
  {
    SquareSign(h);
    Undivided(s + next - 2.0 * m, Square(h), CubeCoef(h, m, s, next));
    Regrouped(CubeCoef(h, m, s, next), h);
  }

  lemma Regrouped(c: real, h: real)
    ensures c * Square(h) == c * h * h
  {
  }

  lemma Undivided(x: real, d: real, q: real)
    requires d != 0.0 && q == x / d
    ensures q * d == x
  {
  }

  lemma PieceEndAlgebra(a: real, b: real, s: real, m: real, h: real, next: real)
    requires a * h * h == s + next - 2.0 * m && b * h == 3.0 * m - 2.0 * s - next
    ensures s + (b + a * h) * h == m
    ensures s + (2.0 * b + 3.0 * a * h) * h == next
  {
    assert (b + a * h) * h == b * h + a * h * h;
    assert (2.0 * b + 3.0 * a * h) * h == 2.0 * (b * h) + 3.0 * (a * h * h);
  }

  /** Every piece joins the values and the slopes of its two knots. */
  lemma AkimaEnds(keys: seq<real>, values: seq<real>, j: nat)
    requires Separated(keys) && |keys| == |values| >= 2 && j + 1 < |keys|
    ensures var c, m, h := AkimaOf(keys, values), Slopes(keys, values), H(keys, j);
            PieceAt(c, Value, j, 0.0) == values[j] && PieceAt(c, Value, j, h) == values[j + 1] &&
            PieceAt(c, First, j, 0.0) == KnotSlope(m, j) && PieceAt(c, First, j, h) == KnotSlope(m, j + 1)
  {
    hide KnotSlope, Slope, CubeCoef, SquareCoef, H, Separated;
    var c, m, h := AkimaOf(keys, values), Slopes(keys, values), H(keys, j);
    SlopeTimes(keys, values, j);
    CubeTimes(h, m[j], KnotSlope(m, j), KnotSlope(m, j + 1));
    PieceEndAlgebra(c.a[j], c.b[j], c.c[j], m[j], h, KnotSlope(m, j + 1));
  }

  /** The curve passes through all knots with a continuous first derivative, for any spacing. */
  lemma AkimaIsSmooth(keys: seq<real>, values: seq<real>)
    requires Separated(keys) && |keys| == |values| >= 2
    ensures var c, n := AkimaOf(keys, values), |keys| - 1;
            (forall j :: 0 <= j < n ==>
              PieceAt(c, Value, j, 0.0) == values[j] && PieceAt(c, Value, j, H(keys, j)) == values[j + 1]) &&
            (forall j :: 0 <= j < n - 1 ==> PieceAt(c, First, j, H(keys, j)) == PieceAt(c, First, j + 1, 0.0))
  {
    hide AkimaOf, H, Separated, PieceAt, KnotSlope, Slopes;
    forall j | 0 <= j < |keys| - 1
      ensures PieceAt(AkimaOf(keys, values), Value, j, 0.0) == values[j]
      ensures PieceAt(AkimaOf(keys, values), Value, j, H(keys, j)) == values[j + 1]
    {
      AkimaEnds(keys, values, j);
    }
    forall j | 0 <= j < |keys| - 2
      ensures PieceAt(AkimaOf(keys, values), First, j, H(keys, j)) == PieceAt(AkimaOf(keys, values), First, j + 1, 0.0)
    {
      AkimaEnds(keys, values, j);
      AkimaEnds(keys, values, j + 1);
    }
  }

  // ----- the loops -----

  /** The search from a piece: it stops past the last piece when the query is beyond the keys. */
  function Reach(keys: seq<real>, q: real, from: nat): (j: nat)
    requires from < |keys|
    ensures from <= j < |keys| && (j + 1 < |keys| ==> q <= keys[j + 1])
    decreases |keys| - from
  {
    if from + 1 < |keys| && keys[from + 1] < q then Reach(keys, q, from + 1) else from
  }

  /** The piece reached after i queries: the search never goes back. */
  function PieceReached(keys: seq<real>, queries: seq<real>, i: nat): (j: nat)
    requires |keys| >= 1 && i <= |queries|
    ensures j < |keys|
  {
    if i == 0 then 0 else Reach(keys, queries[i - 1], PieceReached(keys, queries, i - 1))
  }

  /** The result of query k, when it does not run out of keys. */
  function ResultAt(keys: seq<real>, c: MultiSplineCoef, queries: seq<real>, k: nat): real
    requires |keys| >= 2 && c.Sized(|keys| - 1) && k < |queries|
  {
    var j := PieceReached(keys, queries, k + 1);
    if j + 1 < |keys| then PieceAt(c, Value, j, queries[k] - keys[j]) else 0.0
  }

  method SlopesOf(keys: seq<real>, values: seq<real>) returns (m: seq<real>)
    requires Separated(keys) && |keys| == |values| >= 2
    ensures m == Slopes(keys, values)
  {
    hide Slope, Separated;
    m := [];
    var i := 0;
    while i < |keys| - 1
      invariant 0 <= i == |m| <= |keys| - 1
      invariant forall k :: 0 <= k < i ==> m[k] == Slope(keys, values, k)
    {
      StepSlope(keys, values, i);
      m := m + [(values[i + 1] - values[i]) / (keys[i + 1] - keys[i])];
      i := i + 1;
    }
  }

  lemma StepSlope(keys: seq<real>, values: seq<real>, i: nat)
    requires Separated(keys) && |keys| == |values| && i + 1 < |keys|
    ensures keys[i + 1] - keys[i] != 0.0
    ensures Slope(keys, values, i) == (values[i + 1] - values[i]) / (keys[i + 1] - keys[i])
  {
  }

  method KnotSlopes(m: seq<real>) returns (s: seq<real>)
    requires |m| >= 1
    ensures |s| == |m| + 1 && forall i :: 0 <= i <= |m| ==> s[i] == KnotSlope(m, i)
  {
    s := [];
    var i := 0;
    while i < |m| + 1
      invariant 0 <= i == |s| <= |m| + 1
      invariant forall k :: 0 <= k < i ==> s[k] == KnotSlope(m, k)
    {
      if i == 0 {
        s := s + [m[0]];
      } else if i == |m| {
        s := s + [m[|m| - 1]];
      } else if i == 1 || i == |m| - 1 {
        s := s + [(m[i - 1] + m[i]) / 2.0];
      } else {
        s := s + [Blended(m[i - 2], m[i - 1], m[i], m[i + 1])];
      }
      i := i + 1;
    }
  }

  /** No query runs out of keys. */
  predicate AllReached(keys: seq<real>, queries: seq<real>) {
    |keys| >= 1 && forall k :: 1 <= k <= |queries| ==> PieceReached(keys, queries, k) + 1 < |keys|
  }

  /** Nothing is validated: keys and queries may come in any order, values beyond the keys are not
      read, and the checked accesses fail without keys, with too few values, and for a query that
      runs out of keys. A single key is read past the end of an empty list of slopes. */
  method SplineByAkima(keys: seq<real>, values: seq<real>, queries: seq<real>) returns (r: Result<seq<real>, Error>)
    requires |keys| != 1 && Separated(keys)
    ensures r.Ok? <==> 2 <= |keys| <= |values| && AllReached(keys, queries)
    ensures r.Ok? ==> |r.value| == |queries|
    ensures r.Ok? ==>
      forall k :: 0 <= k < |queries| ==> r.value[k] == ResultAt(keys, AkimaOf(keys, values[..|keys|]), queries, k)
    ensures r.Err? ==> r.error == OutOfRange
  {
    if |keys| == 0 || |values| < |keys| { return Err(OutOfRange); }
    r := InterpolateAkima(keys, values[..|keys|], queries);
  }

  method InterpolateAkima(keys: seq<real>, values: seq<real>, queries: seq<real>) returns (r: Result<seq<real>, Error>)
    requires Separated(keys) && |keys| == |values| >= 2
    ensures r.Ok? <==> AllReached(keys, queries)
    ensures r.Ok? ==> |r.value| == |queries|
    ensures r.Ok? ==>
      forall k :: 0 <= k < |queries| ==> r.value[k] == ResultAt(keys, AkimaOf(keys, values), queries, k)
    ensures r.Err? ==> r.error == OutOfRange
  {
    hide KnotSlope, Slope, CubeCoef, SquareCoef, Separated, AkimaOf, PieceAt, H;
    var m := SlopesOf(keys, values);
    var s := KnotSlopes(m);
    ghost var target := AkimaOf(keys, values);
    var a, b, c, d := [], [], [], [];
    var i := 0;
    while i < |keys| - 1
      invariant 0 <= i == |a| == |b| == |c| == |d| <= |keys| - 1
      invariant forall k :: 0 <= k < i ==> a[k] == target.a[k] && b[k] == target.b[k]
      invariant forall k :: 0 <= k < i ==> c[k] == target.c[k] && d[k] == target.d[k]
    {
      CoefOf(keys, values, i);
      a := a + [CubeCoef(keys[i + 1] - keys[i], m[i], s[i], s[i + 1])];
      b := b + [SquareCoef(keys[i + 1] - keys[i], m[i], s[i], s[i + 1])];
      c := c + [s[i]];
      d := d + [values[i]];
      i := i + 1;
    }
    var coef := MultiSplineCoef(a, b, c, d);
    assert coef == target;
    r := EvaluateAkima(keys, coef, queries);
  }

  lemma CoefOf(keys: seq<real>, values: seq<real>, i: nat)
    requires Separated(keys) && |keys| == |values| && i + 1 < |keys|
    ensures var m, h := Slopes(keys, values), keys[i + 1] - keys[i];
            h != 0.0 &&
            AkimaOf(keys, values).a[i] == CubeCoef(h, m[i], KnotSlope(m, i), KnotSlope(m, i + 1)) &&
            AkimaOf(keys, values).b[i] == SquareCoef(h, m[i], KnotSlope(m, i), KnotSlope(m, i + 1)) &&
            AkimaOf(keys, values).c[i] == KnotSlope(m, i) && AkimaOf(keys, values).d[i] == values[i]
  {
    hide KnotSlope, Slope, CubeCoef, SquareCoef;
    HNonzero(keys, i);
  }

  method EvaluateAkima(keys: seq<real>, coef: MultiSplineCoef, queries: seq<real>) returns (r: Result<seq<real>, Error>)
    requires |keys| >= 2 && coef.Sized(|keys| - 1)
    ensures r.Ok? <==> AllReached(keys, queries)
    ensures r.Ok? ==> |r.value| == |queries|
    ensures r.Ok? ==>
      forall k :: 0 <= k < |queries| ==> r.value[k] == ResultAt(keys, coef, queries, k)
    ensures r.Err? ==> r.error == OutOfRange
  {
    hide PieceAt, ResultAt, Reach, PieceReached;
    NoneReached(keys, queries);
    var res, j, i := [], 0, 0;
    while i < |queries|
      invariant 0 <= i == |res| <= |queries|
      invariant forall k :: 0 <= k < i ==> res[k] == ResultAt(keys, coef, queries, k)
      invariant forall k :: 1 <= k <= i ==> PieceReached(keys, queries, k) + 1 < |keys|
      invariant j == PieceReached(keys, queries, i) && j + 1 < |keys|
    {
      var q := queries[i];
      ghost var from := j;
      while j + 1 < |keys| && keys[j + 1] < q
        invariant from <= j < |keys| && Reach(keys, q, j) == Reach(keys, q, from)
        decreases |keys| - j
      {
        ReachStep(keys, q, j);
        j := j + 1;
      }
      ReachStep(keys, q, j);
      ReachedNext(keys, coef, queries, i);
      if j + 1 >= |keys| { return Err(OutOfRange); }
      res := res + [PieceAt(coef, Value, j, q - keys[j])];
      i := i + 1;
    }
    r := Ok(res);
  }

  lemma NoneReached(keys: seq<real>, queries: seq<real>)
    requires |keys| >= 1
    ensures PieceReached(keys, queries, 0) == 0
  {
  }

  lemma ReachStep(keys: seq<real>, q: real, j: nat)
    requires j < |keys|
    ensures Reach(keys, q, j) == if j + 1 < |keys| && keys[j + 1] < q then Reach(keys, q, j + 1) else j
  {
  }

  lemma ReachedNext(keys: seq<real>, c: MultiSplineCoef, queries: seq<real>, i: nat)
    requires |keys| >= 2 && c.Sized(|keys| - 1) && i < |queries|
    ensures PieceReached(keys, queries, i + 1) == Reach(keys, queries[i], PieceReached(keys, queries, i))
    ensures var j := PieceReached(keys, queries, i + 1);
            j + 1 < |keys| ==> ResultAt(keys, c, queries, i) == PieceAt(c, Value, j, queries[i] - keys[j])
  {
    hide Reach, PieceAt;
  }

  /** With increasing keys exactly the queries beyond the last key run out. */
  lemma ReachedIff(keys: seq<real>, queries: seq<real>)
    requires Increasing(keys) && |keys| >= 2
    ensures AllReached(keys, queries) <==> forall k :: 0 <= k < |queries| ==> queries[k] <= keys[|keys| - 1]
  {
    hide Increasing;
    if AllReached(keys, queries) {
      forall k | 0 <= k < |queries| ensures queries[k] <= keys[|keys| - 1] {
        var j := PieceReached(keys, queries, k + 1);
        KeyOrder(keys, j + 1, |keys| - 1);
      }
    }
    if forall k :: 0 <= k < |queries| ==> queries[k] <= keys[|keys| - 1] { NoneRunsOut(keys, queries, |queries|); }
  }

  lemma {:induction false} NoneRunsOut(keys: seq<real>, queries: seq<real>, n: nat)
    requires |keys| >= 2 && n <= |queries|
    requires forall k :: 0 <= k < |queries| ==> queries[k] <= keys[|keys| - 1]
    ensures forall k :: 0 <= k <= n ==> PieceReached(keys, queries, k) + 1 < |keys|
  {
    hide Reach;
    if n > 0 {
      NoneRunsOut(keys, queries, n - 1);
      ReachInside(keys, queries[n - 1], PieceReached(keys, queries, n - 1));
    }
  }

  lemma {:induction false} ReachInside(keys: seq<real>, q: real, from: nat)
    requires from + 1 < |keys| && q <= keys[|keys| - 1]
    ensures Reach(keys, q, from) + 1 < |keys|
    decreases |keys| - from
  {
    if keys[from + 1] < q { ReachInside(keys, q, from + 1); }
  }

  lemma KeyOrder(keys: seq<real>, i: nat, j: nat)
    requires Increasing(keys) && i <= j < |keys|
    ensures keys[i] <= keys[j]
  {
  }

  /** The search never goes back, and goes only as far as some query so far demands. */
  lemma {:induction false} SearchGoesForward(keys: seq<real>, queries: seq<real>, i: nat)
    requires |keys| >= 1 && i < |queries|
    ensures var j, k := PieceReached(keys, queries, i), PieceReached(keys, queries, i + 1);
            && j <= k && (k + 1 < |keys| ==> queries[i] <= keys[k + 1])
            && (k > j ==> keys[k] < queries[i])
  {
    ReachStops(keys, queries[i], PieceReached(keys, queries, i));
  }

  lemma {:induction false} ReachStops(keys: seq<real>, q: real, from: nat)
    requires from < |keys|
    ensures Reach(keys, q, from) > from ==> keys[Reach(keys, q, from)] < q
    decreases |keys| - from
  {
    if from + 1 < |keys| && keys[from + 1] < q { ReachStops(keys, q, from + 1); }
  }

  /** For queries in order the piece reached is the one the query belongs to. */
  lemma {:induction false} SortedQueries(keys: seq<real>, queries: seq<real>, k: nat)
    requires Increasing(keys) && |keys| >= 2 && NotDecreasing(queries) && k < |queries|
    requires forall i :: 0 <= i < |queries| ==> queries[i] <= keys[|keys| - 1]
    ensures PieceReached(keys, queries, k + 1) == PieceOf(keys, queries[k])
  {
    hide PieceOf;
    if k > 0 { SortedQueries(keys, queries, k - 1); }
    ReachIsPiece(keys, queries[k], PieceReached(keys, queries, k));
  }

  lemma {:induction false} ReachIsPiece(keys: seq<real>, q: real, from: nat)
    requires Increasing(keys) && from + 1 < |keys| && q <= keys[|keys| - 1] && (from > 0 ==> keys[from] < q)
    ensures Reach(keys, q, from) == PieceOf(keys, q)
    decreases |keys| - from
  {
    hide PieceOf;
    if keys[from + 1] < q {
      ReachIsPiece(keys, q, from + 1);
    } else {
      SamePiece(keys, q, from, PieceOf(keys, q));
    }
  }
}
