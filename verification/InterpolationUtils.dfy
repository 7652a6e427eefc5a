/** Checks and the key search shared by the interpolators. */
module InterpolationUtils {
  import opened Wrappers
  import opened Scalars

  /** What the source throws. */
  datatype Error = InvalidArgument | OutOfRange

  const EPSILON := 0.001

  predicate Increasing(x: seq<real>): (r: bool)
    ensures r ==> Separated(x)
  {
    forall i, j :: 0 <= i < j < |x| ==> x[i] < x[j]
  }

  /** Neighbours differ. */
  predicate Separated(x: seq<real>) {
    forall i :: 0 <= i < |x| - 1 ==> x[i + 1] != x[i]
  }

  predicate NotDecreasing(x: seq<real>) {
    forall i, j :: 0 <= i < j < |x| ==> x[i] <= x[j]
  }

  method IsIncreasing(x: seq<real>) returns (r: bool)
    requires |x| >= 1
    ensures r <==> Increasing(x)
  {
    var i := 0;
    while i < |x| - 1
      invariant 0 <= i <= |x| - 1 && Increasing(x[..i + 1])
    {
      if x[i] >= x[i + 1] { return false; }
      assert x[..i + 2] == x[..i + 1] + [x[i + 1]];
      i := i + 1;
    }
    assert x[..|x|] == x;
    r := true;
  }

  method IsNotDecreasing(x: seq<real>) returns (r: bool)
    requires |x| >= 1
    ensures r <==> NotDecreasing(x)
  {
    var i := 0;
    while i < |x| - 1
      invariant 0 <= i <= |x| - 1 && NotDecreasing(x[..i + 1])
    {
      if x[i] > x[i + 1] { return false; }
      assert x[..i + 2] == x[..i + 1] + [x[i + 1]];
      i := i + 1;
    }
    assert x[..|x|] == x;
    r := true;
  }

  // ----- validation -----

  /** Keys and queries that are not rejected: the queries may leave the keys by a small margin. */
  predicate Acceptable(keys: seq<real>, queries: seq<real>) {
    && |keys| >= 2 && |queries| >= 1 && Increasing(keys) && NotDecreasing(queries)
    && keys[0] - EPSILON <= queries[0] && queries[|queries| - 1] <= keys[|keys| - 1] + EPSILON
  }

  lemma AcceptableKeys(keys: seq<real>, queries: seq<real>)
    requires Acceptable(keys, queries)
    ensures |keys| >= 2 && |queries| >= 1 && Increasing(keys)
  {
  }

  /** Only the first and the last query are moved into the range of the keys. */
  function Cropped(keys: seq<real>, queries: seq<real>): (r: seq<real>)
    requires |keys| >= 1 && |queries| >= 1
    ensures |r| == |queries|
  {
    var q := queries[0 := Max(queries[0], keys[0])];
    q[|q| - 1 := Min(q[|q| - 1], keys[|keys| - 1])]
  }

  /** What is rejected: fewer than two keys or no query, keys that do not increase, queries that decrease,
      or a first or last query more than a thousandth outside the keys. */
  lemma AcceptedIff(keys: seq<real>, queries: seq<real>)
    ensures Acceptable(keys, queries) <==>
            |keys| >= 2 && |queries| >= 1 && Increasing(keys) && NotDecreasing(queries) &&
            queries[0] - keys[0] >= -0.001 && queries[|queries| - 1] - keys[|keys| - 1] <= 0.001
  {
  }

  /** The first query is not moved beyond the first key, nor the last one beyond the last; no other
      query moves, and none by more than a thousandth. */
  lemma CroppedIs(keys: seq<real>, queries: seq<real>)
    requires Acceptable(keys, queries)
    ensures var q, n := Cropped(keys, queries), |queries| - 1;
            && (forall i :: 0 < i < n ==> q[i] == queries[i])
            && (n > 0 ==> q[0] == (if queries[0] < keys[0] then keys[0] else queries[0]) &&
                          q[n] == (if queries[n] > keys[|keys| - 1] then keys[|keys| - 1] else queries[n]))
            && (n == 0 ==> q[0] == if queries[0] < keys[0] then keys[0]
                                   else if queries[0] > keys[|keys| - 1] then keys[|keys| - 1] else queries[0])
            && (forall i :: 0 <= i <= n ==> -0.001 <= q[i] - queries[i] <= 0.001)
  {
    assert keys[0] < keys[|keys| - 1];
  }

  method ValidateKeys(keys: seq<real>, queries: seq<real>) returns (r: Result<seq<real>, Error>)
    ensures r == if Acceptable(keys, queries) then Ok(Cropped(keys, queries)) else Err(InvalidArgument)
  {
    if |keys| == 0 || |queries| == 0 { return Err(InvalidArgument); }
    if |keys| < 2 { return Err(InvalidArgument); }
    var increasing := IsIncreasing(keys);
    if !increasing { return Err(InvalidArgument); }
    var notDecreasing := IsNotDecreasing(queries);
    if !notDecreasing { return Err(InvalidArgument); }
    if queries[0] < keys[0] - EPSILON || keys[|keys| - 1] + EPSILON < queries[|queries| - 1] {
      return Err(InvalidArgument);
    }
    var validated := queries;
    validated := validated[0 := Max(validated[0], keys[0])];
    validated := validated[|validated| - 1 := Min(validated[|validated| - 1], keys[|keys| - 1])];
    r := Ok(validated);
  }

  predicate Matching(keys: seq<real>, values: seq<real>) {
    |keys| == |values| >= 2
  }

  method ValidateKeysAndValues(keys: seq<real>, values: seq<real>) returns (ok: bool)
    ensures ok <==> |keys| == |values| >= 2
  {
    if |keys| == 0 || |values| == 0 { return false; }
    if |keys| < 2 || |values| < 2 { return false; }
    if |keys| != |values| { return false; }
    ok := true;
  }

  // ----- the key search -----

  /** The first piece whose right key is not below the query. */
  function PieceOf(keys: seq<real>, q: real): (j: nat)
    requires |keys| >= 2 && q <= keys[|keys| - 1]
    ensures j + 1 < |keys| && q <= keys[j + 1]
    ensures forall k :: 0 < k <= j ==> keys[k] < q
  {
    PieceFrom(keys, q, 0)
  }

  function PieceFrom(keys: seq<real>, q: real, from: nat): (j: nat)
    requires from + 1 < |keys| && q <= keys[|keys| - 1]
    ensures from <= j && j + 1 < |keys| && q <= keys[j + 1]
    ensures forall k :: from < k <= j ==> keys[k] < q
    decreases |keys| - from
  {
    if keys[from + 1] < q then PieceFrom(keys, q, from + 1) else from
  }

  /** The loop of every evaluator: moves forward from a piece that is not past the query, and runs
      out of keys exactly when the query is beyond the last. */
  method Advance(keys: seq<real>, q: real, from: nat) returns (j: nat, found: bool)
    requires Increasing(keys) && from + 1 < |keys|
    requires from > 0 ==> keys[from] < q
    ensures found <==> q <= keys[|keys| - 1]
    ensures found ==> j == PieceOf(keys, q)
  {
    j := from;
    while j + 1 < |keys| && keys[j + 1] < q
      invariant from <= j < |keys| && (j > 0 ==> keys[j] < q)
      decreases |keys| - j
    {
      j := j + 1;
    }
    found := j + 1 < |keys|;
    if found { SamePiece(keys, q, j, PieceOf(keys, q)); }
  }

  lemma SamePiece(keys: seq<real>, q: real, i: nat, j: nat)
    requires Increasing(keys) && i + 1 < |keys| && j + 1 < |keys|
    requires q <= keys[i + 1] && (i > 0 ==> keys[i] < q)
    requires q <= keys[j + 1] && (j > 0 ==> keys[j] < q)
    ensures i == j
  {
  }

  /** Whether some query stays beyond the last key after cropping. */
  predicate RunsOut(keys: seq<real>, queries: seq<real>) {
    |keys| >= 1 && exists i :: 0 <= i < |queries| - 1 && queries[i] > keys[|keys| - 1]
  }

  lemma CroppedRunsOut(keys: seq<real>, queries: seq<real>)
    requires Acceptable(keys, queries)
    ensures RunsOut(keys, queries) <==> exists i :: 0 <= i < |queries| && Cropped(keys, queries)[i] > keys[|keys| - 1]
  {
    var last, q := keys[|keys| - 1], Cropped(keys, queries);
    assert keys[0] < last;
    forall i | 0 <= i < |queries| - 1 ensures queries[i] > last <==> q[i] > last { }
    assert q[|q| - 1] <= last;
    if exists i :: 0 <= i < |queries| && q[i] > last {
      var i :| 0 <= i < |queries| && q[i] > last;
      assert queries[i] > last;
    }
    if RunsOut(keys, queries) {
      var i :| 0 <= i < |queries| - 1 && queries[i] > last;
      assert q[i] > last;
    }
  }

  /** Two queries just beyond the last key are accepted, but only one of them is moved back. */
  lemma CroppingExample()
    ensures Acceptable([0.0, 1.0], [1.0005, 1.0005]) && RunsOut([0.0, 1.0], [1.0005, 1.0005])
    ensures Cropped([0.0, 1.0], [1.0005, 1.0005]) == [1.0005, 1.0]
  {
    assert [1.0005, 1.0005][0] > [0.0, 1.0][1];
  }

  /** A piece that was right for one query is not past the next. */
  lemma PiecesAdvance(keys: seq<real>, queries: seq<real>, i: nat)
    requires Acceptable(keys, queries) && i + 1 < |queries|
    requires Cropped(keys, queries)[i] <= keys[|keys| - 1]
    ensures var j := PieceOf(keys, Cropped(keys, queries)[i]); j > 0 ==> keys[j] < Cropped(keys, queries)[i + 1]
  {
    var q := Cropped(keys, queries);
    var j := PieceOf(keys, q[i]);
    if j > 0 {
      assert keys[j] < q[i];
      assert keys[0] < keys[j] <= keys[|keys| - 1];
      assert queries[i] <= queries[i + 1];
    }
  }
}
