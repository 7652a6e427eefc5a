/** The two linear interpolators: `lerp` on increasing keys, and the one of the lateral controller,
    which also accepts repeated keys. */
module LinearInterpolation {
  import opened Wrappers
  import opened InterpolationUtils

  // ----- lerp -----

  function Lerp(src: real, dst: real, ratio: real): real {
    src + (dst - src) * ratio
  }

  /** The piecewise linear function through the keys and values. */
  function LerpAt(keys: seq<real>, values: seq<real>, q: real): real
    requires Increasing(keys) && Matching(keys, values) && q <= keys[|keys| - 1]
  {
    var j := PieceOf(keys, q);
    Lerp(values[j], values[j + 1], (q - keys[j]) / (keys[j + 1] - keys[j]))
  }

  predicate LerpedTo(keys: seq<real>, values: seq<real>, q: seq<real>, res: seq<real>)
    requires Increasing(keys) && Matching(keys, values)
  {
    |res| <= |q| && forall i :: 0 <= i < |res| ==>
      q[i] <= keys[|keys| - 1] && res[i] == LerpAt(keys, values, q[i])
  }

  /** Keys are checked before values; a query other than the last beyond the last key runs out of
      keys. */
  method VectorLerp(keys: seq<real>, values: seq<real>, queries: seq<real>) returns (r: Result<seq<real>, Error>)
    ensures !Acceptable(keys, queries) || !Matching(keys, values) ==> r == Err(InvalidArgument)
    ensures Acceptable(keys, queries) && Matching(keys, values) && RunsOut(keys, queries) ==> r == Err(OutOfRange)
    ensures Acceptable(keys, queries) && Matching(keys, values) && !RunsOut(keys, queries) ==>
      Increasing(keys) && r.Ok? && |r.value| == |queries| &&
      LerpedTo(keys, values, Cropped(keys, queries), r.value)
  {
    hide LerpAt, Lerp, RunsOut, Increasing, PieceOf, Cropped, Acceptable, LerpedTo;
    var validated := ValidateKeys(keys, queries);
    if validated.Err? { return Err(validated.error); }
    var matching := ValidateKeysAndValues(keys, values);
    if !matching { return Err(InvalidArgument); }
    var q := validated.value;
    AcceptableKeys(keys, queries);
    CroppedRunsOut(keys, queries);
    LerpedStart(keys, values, q);
    var res, j, i := [], 0, 0;
    while i < |q|
      invariant 0 <= i == |res| <= |q| && LerpedTo(keys, values, q, res)
      invariant i == 0 ==> j == 0
      invariant i > 0 ==> q[i - 1] <= keys[|keys| - 1] && j == PieceOf(keys, q[i - 1])
    {
      if i > 0 { PiecesAdvance(keys, queries, i - 1); }
      var found;
      j, found := Advance(keys, q[i], j);
      if !found { return Err(OutOfRange); }
      KeysApart(keys, j);
      var src, dst := values[j], values[j + 1];
      var ratio := (q[i] - keys[j]) / (keys[j + 1] - keys[j]);
      LerpedNext(keys, values, q, res, ratio);
      res := res + [Lerp(src, dst, ratio)];
      i := i + 1;
    }
    LerpedInRange(keys, values, q, res);
    r := Ok(res);
  }

  lemma KeysApart(keys: seq<real>, j: nat)
    requires Increasing(keys) && j + 1 < |keys|
    ensures keys[j + 1] - keys[j] > 0.0
  {
  }

  lemma LerpedStart(keys: seq<real>, values: seq<real>, q: seq<real>)
    requires Increasing(keys) && Matching(keys, values)
    ensures LerpedTo(keys, values, q, [])
  {
  }

  lemma LerpedNext(keys: seq<real>, values: seq<real>, q: seq<real>, res: seq<real>, ratio: real)
    requires Increasing(keys) && Matching(keys, values) && |res| < |q| && LerpedTo(keys, values, q, res)
    requires q[|res|] <= keys[|keys| - 1]
    requires var j := PieceOf(keys, q[|res|]);
             keys[j + 1] != keys[j] && ratio == (q[|res|] - keys[j]) / (keys[j + 1] - keys[j])
    ensures var j := PieceOf(keys, q[|res|]);
            LerpedTo(keys, values, q, res + [Lerp(values[j], values[j + 1], ratio)])
  {
    hide Lerp, PieceOf, Increasing;
  }

  lemma LerpedInRange(keys: seq<real>, values: seq<real>, q: seq<real>, res: seq<real>)
    requires Increasing(keys) && Matching(keys, values) && LerpedTo(keys, values, q, res)
    ensures forall i :: 0 <= i < |res| ==> q[i] <= keys[|keys| - 1]
  {
  }

  // ----- the interpolator of the lateral controller -----

  /** The first index whose key is not below the query. */
  function FirstFrom(keys: seq<real>, q: real, from: nat): (i: nat)
    requires from < |keys| && q <= keys[|keys| - 1]
    ensures from <= i < |keys| && q <= keys[i] && forall k :: from <= k < i ==> keys[k] < q
    decreases |keys| - from
  {
    if keys[from] < q then FirstFrom(keys, q, from + 1) else from
  }

  /** The interpolated value, of one key when the query is at or below the first. */
  function InterpolatedAt(keys: seq<real>, values: seq<real>, q: real): real
    requires |keys| == |values| >= 1 && q <= keys[|keys| - 1]
  {
    var i := FirstFrom(keys, q, 0);
    if i == 0 then values[0]
    else Blend(q - keys[i - 1], values[i], keys[i] - q, values[i - 1], keys[i] - keys[i - 1])
  }

  function Blend(backward: real, v: real, forward: real, w: real, dist: real): real
    requires dist > 0.0
  {
    (backward * v + forward * w) / dist
  }

  predicate ValidInput(keys: seq<real>, values: seq<real>, queries: seq<real>) {
    && |keys| == |values| >= 1 && |queries| >= 1 && NotDecreasing(keys) && NotDecreasing(queries)
    && keys[0] <= queries[0] && queries[|queries| - 1] <= keys[|keys| - 1]
  }

  method IsValidInput(keys: seq<real>, values: seq<real>, queries: seq<real>) returns (ok: bool)
    ensures ok <==> ValidInput(keys, values, queries)
  {
    if |keys| == 0 || |values| == 0 || |queries| == 0 { return false; }
    var increasing := IsNotDecreasing(keys);
    if !increasing { return false; }
    var queriesIncreasing := IsNotDecreasing(queries);
    if !queriesIncreasing { return false; }
    if queries[0] < keys[0] { return false; }
    if keys[|keys| - 1] < queries[|queries| - 1] { return false; }
    if |keys| != |values| { return false; }
    ok := true;
  }

  /** What is accepted: as many values as keys, at least one query, neither keys nor queries decreasing,
      and every query within the keys. */
  lemma ValidIff(keys: seq<real>, values: seq<real>, queries: seq<real>)
    ensures ValidInput(keys, values, queries) <==>
            |keys| == |values| && |keys| >= 1 && |queries| >= 1 && NotDecreasing(keys) && NotDecreasing(queries) &&
            forall i :: 0 <= i < |queries| ==> keys[0] <= queries[i] <= keys[|keys| - 1]
  {
    if |keys| >= 1 && |queries| >= 1 && forall i :: 0 <= i < |queries| ==> keys[0] <= queries[i] <= keys[|keys| - 1] {
      assert keys[0] <= queries[0] && queries[|queries| - 1] <= keys[|keys| - 1];
    }
  }

  /** With repeated keys too: at a key the value of its first occurrence, and between two different
      neighbours a value on the line between theirs. */
  lemma InterpolatedBetween(keys: seq<real>, values: seq<real>, q: real, i: nat)
    requires NotDecreasing(keys) && |keys| == |values| && 0 < i < |keys| && keys[i - 1] < q <= keys[i]
    ensures q <= keys[|keys| - 1]
    ensures (InterpolatedAt(keys, values, q) - values[i - 1]) * (keys[i] - keys[i - 1]) ==
            (values[i] - values[i - 1]) * (q - keys[i - 1])
  {
    hide FirstFrom;
    FirstIs(keys, q, i);
    var d, v := keys[i] - keys[i - 1], InterpolatedAt(keys, values, q);
    assert v * d == (q - keys[i - 1]) * values[i] + (keys[i] - q) * values[i - 1];
  }

  lemma InterpolatedAtFirst(keys: seq<real>, values: seq<real>, q: real)
    requires |keys| == |values| >= 1 && q <= keys[0] && q <= keys[|keys| - 1]
    ensures InterpolatedAt(keys, values, q) == values[0]
  {
  }

  /** The values appended so far are those of the first queries. */
  predicate AppendedTo(keys: seq<real>, values: seq<real>, queries: seq<real>, before: seq<real>, out: seq<real>)
    requires ValidInput(keys, values, queries)
  {
    && |before| <= |out| <= |before| + |queries| && out[..|before|] == before
    && forall k :: 0 <= k < |out| - |before| ==>
         queries[k] <= keys[|keys| - 1] && out[|before| + k] == InterpolatedAt(keys, values, queries[k])
  }

  lemma AppendedNext(keys: seq<real>, values: seq<real>, queries: seq<real>, before: seq<real>, out: seq<real>, v: real)
    requires ValidInput(keys, values, queries) && AppendedTo(keys, values, queries, before, out)
    requires |out| < |before| + |queries|
    requires queries[|out| - |before|] <= keys[|keys| - 1]
    requires v == InterpolatedAt(keys, values, queries[|out| - |before|])
    ensures AppendedTo(keys, values, queries, before, out + [v])
  {
    hide InterpolatedAt;
    assert (out + [v])[..|before|] == before;
  }

  lemma QueriesInRange(keys: seq<real>, values: seq<real>, queries: seq<real>, n: nat)
    requires ValidInput(keys, values, queries) && n < |queries|
    ensures keys[0] <= queries[n] <= keys[|keys| - 1] && (n > 0 ==> keys[0] <= queries[n - 1] <= queries[n])
  {
  }

  /** One value is appended per query: the branch that skips a query is never taken and the divisor
      is never zero, even with repeated keys. */
  method LinearInterpolate(keys: seq<real>, values: seq<real>, queries: seq<real>, returned: seq<real>)
      returns (ok: bool, out: seq<real>)
    ensures ok <==> ValidInput(keys, values, queries)
    ensures !ok ==> out == returned
    ensures ok ==> |out| == |returned| + |queries| && out[..|returned|] == returned
    ensures ok ==> forall k :: 0 <= k < |queries| ==>
      queries[k] <= keys[|keys| - 1] && out[|returned| + k] == InterpolatedAt(keys, values, queries[k])
  {
    hide AppendedTo, InterpolatedAt, ValidInput, FirstFrom, NotDecreasing, Blend;
    out := returned;
    ok := IsValidInput(keys, values, queries);
    if !ok { return; }
    InputShape(keys, values, queries, returned);
    var i, n := 0, 0;
    while n < |queries|
      invariant 0 <= n <= |queries| && |out| == |returned| + n && AppendedTo(keys, values, queries, returned, out)
      invariant n == 0 ==> i == 0
      invariant n > 0 ==> queries[n - 1] <= keys[|keys| - 1] && i == FirstFrom(keys, queries[n - 1], 0)
    {
      var idx := queries[n];
      QueriesInRange(keys, values, queries, n);
      FirstMoves(keys, if n > 0 then queries[n - 1] else idx, idx, i);
      if keys[i] == idx {
        KeyValue(keys, values, idx, i);
        AppendedNext(keys, values, queries, returned, out, values[i]);
        out := out + [values[i]];
      } else {
        ghost var from := i;
        while keys[i] < idx
          invariant from <= i < |keys| && (i > 0 ==> keys[i - 1] < idx)
          decreases |keys| - i
        {
          i := i + 1;
          if i <= 0 || |keys| - 1 < i { break; }
        }
        FirstIs(keys, idx, i);
        assert 0 < i <= |keys| - 1;
        var dist := keys[i] - keys[i - 1];
        var forward, backward := keys[i] - idx, idx - keys[i - 1];
        assert dist > 0.0;
        InterpolatedIs(keys, values, idx, i);
        AppendedNext(keys, values, queries, returned, out, Blend(backward, values[i], forward, values[i - 1], dist));
        out := out + [Blend(backward, values[i], forward, values[i - 1], dist)];
      }
      n := n + 1;
    }
    AllAppended(keys, values, queries, returned, out);
  }

  lemma AllAppended(keys: seq<real>, values: seq<real>, queries: seq<real>, before: seq<real>, out: seq<real>)
    requires ValidInput(keys, values, queries) && AppendedTo(keys, values, queries, before, out)
    requires |out| == |before| + |queries|
    ensures |keys| == |values| >= 1 && out[..|before|] == before
    ensures forall k :: 0 <= k < |queries| ==>
      queries[k] <= keys[|keys| - 1] && out[|before| + k] == InterpolatedAt(keys, values, queries[k])
  {
    hide InterpolatedAt;
  }

  lemma InputShape(keys: seq<real>, values: seq<real>, queries: seq<real>, returned: seq<real>)
    requires ValidInput(keys, values, queries)
    ensures |keys| == |values| >= 1 && |queries| >= 1 && NotDecreasing(keys)
    ensures AppendedTo(keys, values, queries, returned, returned)
  {
  }

  /** An index whose key is not below the query, the previous one being below, is the first. */
  lemma FirstIs(keys: seq<real>, q: real, i: nat)
    requires NotDecreasing(keys) && i < |keys| && q <= keys[i] && (i > 0 ==> keys[i - 1] < q)
    ensures q <= keys[|keys| - 1] && i == FirstFrom(keys, q, 0)
  {
    var j := FirstFrom(keys, q, 0);
    if j < i { NotBelow(keys, j, i - 1); }
  }

  lemma NotBelow(keys: seq<real>, i: int, j: int)
    requires NotDecreasing(keys) && 0 <= i <= j < |keys|
    ensures keys[i] <= keys[j]
  {
  }

  /** The search resumes where the previous one stopped. */
  lemma FirstMoves(keys: seq<real>, p: real, q: real, i: nat)
    requires NotDecreasing(keys) && |keys| >= 1 && p <= q <= keys[|keys| - 1] && keys[0] <= p
    requires i == 0 || i == FirstFrom(keys, p, 0)
    ensures i < |keys| && (i > 0 ==> keys[i - 1] < q)
    ensures keys[i] > q ==> i > 0
  {
  }

  lemma KeyValue(keys: seq<real>, values: seq<real>, q: real, i: nat)
    requires NotDecreasing(keys) && |keys| == |values| && i < |keys| && keys[i] == q && (i > 0 ==> keys[i - 1] < q)
    ensures q <= keys[|keys| - 1] && i == FirstFrom(keys, q, 0) && InterpolatedAt(keys, values, q) == values[i]
  {
    hide FirstFrom, Blend;
    FirstIs(keys, q, i);
    if i > 0 { WholeStep(keys[i] - keys[i - 1], values[i], values[i - 1]); }
  }

  lemma WholeStep(d: real, v: real, w: real)
    requires d > 0.0
    ensures Blend(d, v, 0.0, w, d) == v
  {
  }

  lemma InterpolatedIs(keys: seq<real>, values: seq<real>, q: real, i: nat)
    requires |keys| == |values| && 0 < i < |keys| && q <= keys[|keys| - 1] && i == FirstFrom(keys, q, 0)
    requires keys[i] - keys[i - 1] > 0.0
    ensures InterpolatedAt(keys, values, q) ==
            Blend(q - keys[i - 1], values[i], keys[i] - q, values[i - 1], keys[i] - keys[i - 1])
  {
    hide FirstFrom, Blend;
  }

  /** The scalar form. */
  method InterpolateOne(keys: seq<real>, values: seq<real>, q: real) returns (ok: bool, v: real)
    ensures ok <==> ValidInput(keys, values, [q])
    ensures ok ==> q <= keys[|keys| - 1] && v == InterpolatedAt(keys, values, q)
  {
    hide InterpolatedAt;
    var out;
    v := 0.0;
    ok, out := LinearInterpolate(keys, values, [q], []);
    if ok {
      v := out[0];
    }
  }

  // ----- agreement -----

  lemma SameFraction(a: real, b: real, t: real, d: real)
    requires d > 0.0
    ensures Blend(t, b, d - t, a, d) == Lerp(a, b, t / d)
  {
    var r := t / d;
    assert r * d == t;
    var x := a + (b - a) * r;
    assert x * d == a * d + (b - a) * (r * d);
    QuotientIs(t * b + (d - t) * a, d, x);
  }

  lemma QuotientIs(n: real, d: real, x: real)
    requires d > 0.0 && n == x * d
    ensures n / d == x
  {
  }

  /** On increasing keys both interpolators give the same value at every query in range. */
  lemma InterpolatorsAgree(keys: seq<real>, values: seq<real>, q: real)
    requires Increasing(keys) && Matching(keys, values) && keys[0] <= q <= keys[|keys| - 1]
    ensures InterpolatedAt(keys, values, q) == LerpAt(keys, values, q)
  {
    hide Lerp, Blend, FirstFrom, PieceOf;
    var i, j := FirstFrom(keys, q, 0), PieceOf(keys, q);
    if i == 0 {
      SamePiece(keys, q, 0, j);
      AtStart(values[0], values[1], keys[1] - keys[0]);
    } else {
      SamePiece(keys, q, i - 1, j);
      assert keys[i] - q == (keys[i] - keys[i - 1]) - (q - keys[i - 1]);
      SameFraction(values[i - 1], values[i], q - keys[i - 1], keys[i] - keys[i - 1]);
    }
  }

  lemma AtStart(a: real, b: real, d: real)
    requires d > 0.0
    ensures Lerp(a, b, 0.0 / d) == a
  {
  }

  /** At a knot `lerp` gives its value. */
  lemma LerpHitsKnots(keys: seq<real>, values: seq<real>, k: nat)
    requires Increasing(keys) && Matching(keys, values) && k < |keys|
    ensures keys[k] <= keys[|keys| - 1] && LerpAt(keys, values, keys[k]) == values[k]
  {
    hide Lerp, PieceOf;
    var j := if k == 0 then 0 else k - 1;
    SamePiece(keys, keys[k], j, PieceOf(keys, keys[k]));
    AtStart(values[j], values[j + 1], keys[j + 1] - keys[j]);
    AtEnd(values[j], values[j + 1], keys[j + 1] - keys[j]);
  }

  lemma AtEnd(a: real, b: real, d: real)
    requires d > 0.0
    ensures Lerp(a, b, d / d) == b
  {
  }
}
