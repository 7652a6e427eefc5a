/** Compressed sparse column form of a dense matrix, and of its upper triangle.

    Decoding gives back the matrix with the entries below the threshold replaced by zero. */
module CscMatrix {
  import opened Wrappers
  import opened Scalars
  import opened Matrices

  datatype Csc = Csc(vals: Vec, rowIdxs: seq<int>, colIdxs: seq<int>)

  datatype Error = InvalidArgument

  const THRESHOLD := 0.000000001

  predicate Small(x: real) {
    -THRESHOLD < x < THRESHOLD
  }

  function Kept(x: real): real {
    if Small(x) then 0.0 else x
  }

  // ----- what the arrays mean -----

  /** The value stored for row i between two indices, zero when there is none. */
  function Lookup(vals: Vec, rows: seq<int>, from: int, end: int, i: int): real
    requires |vals| == |rows| && 0 <= from <= end <= |vals|
    decreases end - from
  {
    if from == end then 0.0 else if rows[from] == i then vals[from] else Lookup(vals, rows, from + 1, end, i)
  }

  predicate RowsRise(rows: seq<int>, from: int, end: int) {
    0 <= from <= end <= |rows| && forall p, q :: from <= p < q < end ==> rows[p] < rows[q]
  }

  /** The stretch holds column j of m down to the given depth, with rising row indices. */
  predicate HoldsColumn(m: Matrix, vals: Vec, rows: seq<int>, from: int, end: int, j: nat, depth: nat)
    requires j < m.cols && depth <= m.rows
  {
    && |vals| == |rows| && RowsRise(rows, from, end)
    && (forall p :: from <= p < end ==> !Small(vals[p]))
    && (forall p :: from <= p < end ==> 0 <= rows[p] < depth)
    && forall i :: 0 <= i < m.rows ==>
         Lookup(vals, rows, from, end, i) == if i < depth then Kept(m.data[i][j]) else 0.0
  }

  /** The first k columns are in place and the offsets rise from 0 to the number of values. */
  predicate HoldsColumns(m: Matrix, c: Csc, k: nat, triangular: bool)
    requires k <= m.cols && (triangular ==> m.rows == m.cols)
  {
    && |c.colIdxs| == k + 1 && c.colIdxs[0] == 0 && c.colIdxs[k] == |c.vals| == |c.rowIdxs|
    && forall j :: 0 <= j < k ==>
         HoldsColumn(m, c.vals, c.rowIdxs, c.colIdxs[j], c.colIdxs[j + 1], j, if triangular then j + 1 else m.rows)
  }

  // ----- appending an entry -----

  lemma {:induction false} LookupKept(vals: Vec, rows: seq<int>, from: int, end: int, i: int, v: Vec, r: seq<int>)
    requires |vals| == |rows| && |v| == |r| && 0 <= from <= end <= |vals|
    ensures Lookup(vals + v, rows + r, from, end, i) == Lookup(vals, rows, from, end, i)
    decreases end - from
  {
    if from < end { LookupKept(vals, rows, from + 1, end, i, v, r); }
  }

  lemma {:induction false} LookupNext(vals: Vec, rows: seq<int>, from: int, end: int, i: int)
    requires |vals| == |rows| && 0 <= from <= end < |vals|
    ensures rows[end] != i ==> Lookup(vals, rows, from, end + 1, i) == Lookup(vals, rows, from, end, i)
    ensures rows[end] == i && (forall p :: from <= p < end ==> rows[p] != i) ==>
      Lookup(vals, rows, from, end + 1, i) == vals[end]
    decreases end - from
  {
    if from < end { LookupNext(vals, rows, from + 1, end, i); }
  }

  lemma {:induction false} LookupNone(vals: Vec, rows: seq<int>, from: int, end: int, i: int)
    requires |vals| == |rows| && 0 <= from <= end <= |vals| && forall p :: from <= p < end ==> rows[p] != i
    ensures Lookup(vals, rows, from, end, i) == 0.0
    decreases end - from
  {
    if from < end { LookupNone(vals, rows, from + 1, end, i); }
  }

  lemma ColumnKept(m: Matrix, vals: Vec, rows: seq<int>, from: int, end: int, j: nat, depth: nat, v: Vec, r: seq<int>)
    requires j < m.cols && depth <= m.rows && |v| == |r| && HoldsColumn(m, vals, rows, from, end, j, depth)
    ensures HoldsColumn(m, vals + v, rows + r, from, end, j, depth)
  {
    forall i | 0 <= i < m.rows ensures Lookup(vals + v, rows + r, from, end, i) == Lookup(vals, rows, from, end, i) {
      LookupKept(vals, rows, from, end, i, v, r);
    }
  }

  /** One more row of the column being written, skipped when small. */
  lemma ColumnStep(m: Matrix, vals: Vec, rows: seq<int>, from: int, j: nat, depth: nat)
    requires j < m.cols && depth < m.rows && HoldsColumn(m, vals, rows, from, |vals|, j, depth)
    ensures Small(m.data[depth][j]) ==> HoldsColumn(m, vals, rows, from, |vals|, j, depth + 1)
    ensures !Small(m.data[depth][j]) ==>
      HoldsColumn(m, vals + [m.data[depth][j]], rows + [depth], from, |vals| + 1, j, depth + 1)
  {
    hide Small;
    var v := m.data[depth][j];
    LookupNone(vals, rows, from, |vals|, depth);
    if !Small(v) {
      var vals', rows' := vals + [v], rows + [depth];
      forall i | 0 <= i < m.rows
        ensures Lookup(vals', rows', from, |vals'|, i) == if i < depth + 1 then Kept(m.data[i][j]) else 0.0
      {
        LookupKept(vals, rows, from, |vals|, i, [v], [depth]);
        LookupNext(vals', rows', from, |vals|, i);
      }
    }
  }

  // ----- encoding -----

  /** The inner loop: appends the entries of column j down to the given depth. */
  method AppendColumn(m: Matrix, j: nat, depth: nat, vals0: Vec, rows0: seq<int>)
      returns (vals: Vec, rows: seq<int>)
    requires j < m.cols && depth <= m.rows && |vals0| == |rows0|
    ensures vals0 <= vals && rows0 <= rows && HoldsColumn(m, vals, rows, |vals0|, |vals|, j, depth)
  {
    hide HoldsColumn, Small;
    vals, rows := vals0, rows0;
    EmptyColumn(m, vals, rows, j);
    var i := 0;
    while i < depth
      invariant 0 <= i <= depth && |vals| == |rows| && vals0 <= vals && rows0 <= rows
      invariant HoldsColumn(m, vals, rows, |vals0|, |vals|, j, i)
    {
      ColumnStep(m, vals, rows, |vals0|, j, i);
      var val := m.data[i][j];
      if !Small(val) {
        vals := vals + [val];
        rows := rows + [i];
      }
      i := i + 1;
    }
  }

  lemma EmptyColumn(m: Matrix, vals: Vec, rows: seq<int>, j: nat)
    requires j < m.cols && |vals| == |rows|
    ensures HoldsColumn(m, vals, rows, |vals|, |vals|, j, 0)
  {
  }

  lemma ColumnAppended(m: Matrix, c: Csc, d: Csc, j: nat, triangular: bool)
    requires j < m.cols && (triangular ==> m.rows == m.cols) && HoldsColumns(m, c, j, triangular)
    requires c.vals <= d.vals && c.rowIdxs <= d.rowIdxs && d.colIdxs == c.colIdxs + [|d.vals|]
    requires HoldsColumn(m, d.vals, d.rowIdxs, |c.vals|, |d.vals|, j, if triangular then j + 1 else m.rows)
    ensures HoldsColumns(m, d, j + 1, triangular)
  {
    hide HoldsColumn;
    HeldLengths(m, d.vals, d.rowIdxs, |c.vals|, |d.vals|, j, if triangular then j + 1 else m.rows);
    var v, r := d.vals[|c.vals|..], d.rowIdxs[|c.vals|..];
    assert d.vals == c.vals + v && d.rowIdxs == c.rowIdxs + r;
    forall k | 0 <= k < j
      ensures HoldsColumn(m, d.vals, d.rowIdxs, d.colIdxs[k], d.colIdxs[k + 1], k, if triangular then k + 1 else m.rows)
    {
      ColumnKept(m, c.vals, c.rowIdxs, c.colIdxs[k], c.colIdxs[k + 1], k, if triangular then k + 1 else m.rows, v, r);
    }
  }

  lemma HeldLengths(m: Matrix, vals: Vec, rows: seq<int>, from: int, end: int, j: nat, depth: nat)
    requires j < m.cols && depth <= m.rows && HoldsColumn(m, vals, rows, from, end, j, depth)
    ensures |vals| == |rows| && 0 <= from <= end <= |vals|
  {
  }

  method CalCscMatrix(m: Matrix) returns (c: Csc)
    ensures HoldsColumns(m, c, m.cols, false)
  {
    hide HoldsColumn;
    c := Csc([], [], [0]);
    var j := 0;
    while j < m.cols
      invariant 0 <= j <= m.cols && HoldsColumns(m, c, j, false)
    {
      var vals, rows := AppendColumn(m, j, m.rows, c.vals, c.rowIdxs);
      var d := Csc(vals, rows, c.colIdxs + [|vals|]);
      ColumnAppended(m, c, d, j, false);
      c := d;
      j := j + 1;
    }
  }

  /** The upper triangle; a matrix that is not square is rejected. */
  method CalCscMatrixTrapezoidal(m: Matrix) returns (r: Result<Csc, Error>)
    ensures m.rows != m.cols ==> r == Err(InvalidArgument)
    ensures m.rows == m.cols ==> r.Ok? && HoldsColumns(m, r.value, m.cols, true)
  {
    hide HoldsColumn;
    if m.rows != m.cols { return Err(InvalidArgument); }
    var c := Csc([], [], [0]);
    var trapLastIdx := 0;
    var j := 0;
    while j < m.cols
      invariant 0 <= j == trapLastIdx <= m.cols && HoldsColumns(m, c, j, true)
    {
      var vals, rows := AppendColumn(m, j, trapLastIdx + 1, c.vals, c.rowIdxs);
      var d := Csc(vals, rows, c.colIdxs + [|vals|]);
      ColumnAppended(m, c, d, j, true);
      c := d;
      trapLastIdx := trapLastIdx + 1;
      j := j + 1;
    }
    r := Ok(c);
  }

  // ----- decoding -----

  /** Offsets rise from 0 to the number of values. */
  predicate OffsetsRise(c: Csc) {
    && |c.colIdxs| >= 1 && c.colIdxs[0] == 0 && c.colIdxs[|c.colIdxs| - 1] == |c.vals| == |c.rowIdxs|
    && forall j, k :: 0 <= j <= k < |c.colIdxs| ==> 0 <= c.colIdxs[j] <= c.colIdxs[k] <= |c.vals|
  }

  lemma {:induction false} OffsetsInOrder(m: Matrix, c: Csc, triangular: bool, j: nat, k: nat)
    requires (triangular ==> m.rows == m.cols) && HoldsColumns(m, c, m.cols, triangular) && j <= k <= m.cols
    ensures 0 <= c.colIdxs[j] <= c.colIdxs[k] <= |c.vals|
    decreases k - j
  {
    hide HoldsColumn;
    if j < k {
      HeldLengths(m, c.vals, c.rowIdxs, c.colIdxs[j], c.colIdxs[j + 1], j, if triangular then j + 1 else m.rows);
      OffsetsInOrder(m, c, triangular, j + 1, k);
    } else if j > 0 {
      HeldLengths(m, c.vals, c.rowIdxs, c.colIdxs[j - 1], c.colIdxs[j], j - 1, if triangular then j else m.rows);
    }
  }

  function Decode(c: Csc, rows: nat): (m: Matrix)
    requires OffsetsRise(c)
    ensures m.rows == rows && m.cols == |c.colIdxs| - 1
  {
    Grid(rows, |c.colIdxs| - 1, seq(rows, i requires 0 <= i < rows => DecodeRow(c, i)))
  }

  function DecodeRow(c: Csc, i: nat): (r: Vec)
    requires OffsetsRise(c)
    ensures |r| == |c.colIdxs| - 1
    ensures forall j :: 0 <= j < |r| ==> r[j] == Lookup(c.vals, c.rowIdxs, c.colIdxs[j], c.colIdxs[j + 1], i)
  {
    seq(|c.colIdxs| - 1, j requires 0 <= j < |c.colIdxs| - 1 =>
      Lookup(c.vals, c.rowIdxs, c.colIdxs[j], c.colIdxs[j + 1], i))
  }

  function Thresholded(m: Matrix): (t: Matrix)
    ensures t.rows == m.rows && t.cols == m.cols
    ensures forall i, j :: 0 <= i < m.rows && 0 <= j < m.cols ==> t.data[i][j] == Kept(m.data[i][j])
  {
    Grid(m.rows, m.cols, seq(m.rows, i requires 0 <= i < m.rows => KeptRow(m.data[i])))
  }

  function KeptRow(v: Vec): (r: Vec)
    ensures |r| == |v| && forall j :: 0 <= j < |v| ==> r[j] == Kept(v[j])
  {
    seq(|v|, j requires 0 <= j < |v| => Kept(v[j]))
  }

  /** What the threshold keeps. */
  lemma KeptIs(x: real)
    ensures Kept(x) == if Abs(x) < 0.000000001 then 0.0 else x
    ensures Small(x) <==> Abs(x) < 0.000000001
  {
  }

  /** No value below the threshold is stored, and none twice: rows strictly rise in a column. */
  lemma NothingSmallStored(m: Matrix, c: Csc, triangular: bool, j: nat, p: int)
    requires (triangular ==> m.rows == m.cols) && HoldsColumns(m, c, m.cols, triangular)
    requires j < m.cols && c.colIdxs[j] <= p < c.colIdxs[j + 1]
    ensures 0 <= p < |c.vals| == |c.rowIdxs| && Abs(c.vals[p]) >= 0.000000001
    ensures c.colIdxs[j] < p ==> c.rowIdxs[p - 1] < c.rowIdxs[p]
  {
    hide Lookup;
    assert HoldsColumn(m, c.vals, c.rowIdxs, c.colIdxs[j], c.colIdxs[j + 1], j, if triangular then j + 1 else m.rows);
  }

  /** Offsets rise, row indices strictly rise in every column, and decoding gives the thresholded
      matrix, or its upper triangle. */
  lemma DecodeIsThresholded(m: Matrix, c: Csc, triangular: bool)
    requires (triangular ==> m.rows == m.cols) && HoldsColumns(m, c, m.cols, triangular)
    ensures OffsetsRise(c)
    ensures forall j :: 0 <= j < m.cols ==> RowsRise(c.rowIdxs, c.colIdxs[j], c.colIdxs[j + 1])
    ensures forall i, j :: 0 <= i < m.rows && 0 <= j < m.cols ==>
      Decode(c, m.rows).data[i][j] == if triangular && i > j then 0.0 else Kept(m.data[i][j])
  {
    hide Kept, Lookup;
    forall j, k | 0 <= j <= k < |c.colIdxs| ensures 0 <= c.colIdxs[j] <= c.colIdxs[k] <= |c.vals| {
      OffsetsInOrder(m, c, triangular, j, k);
    }
    var d := Decode(c, m.rows);
    forall i, j | 0 <= i < m.rows && 0 <= j < m.cols
      ensures d.data[i][j] == if triangular && i > j then 0.0 else Kept(m.data[i][j])
    {
      assert HoldsColumn(m, c.vals, c.rowIdxs, c.colIdxs[j], c.colIdxs[j + 1], j, if triangular then j + 1 else m.rows);
    }
  }

  /** The full form decodes to the thresholded matrix. */
  lemma RoundTrip(m: Matrix, c: Csc)
    requires HoldsColumns(m, c, m.cols, false)
    ensures OffsetsRise(c) && Decode(c, m.rows) == Thresholded(m)
  {
    hide HoldsColumns, Kept, Decode, Thresholded;
    DecodeIsThresholded(m, c, false);
    OneColumnMore(m, c);
    Extensional(Decode(c, m.rows), Thresholded(m));
  }

  lemma OneColumnMore(m: Matrix, c: Csc)
    requires HoldsColumns(m, c, m.cols, false) || (m.rows == m.cols && HoldsColumns(m, c, m.cols, true))
    ensures |c.colIdxs| == m.cols + 1
  {
  }

  /** The matrix a solver reads from an upper triangle. */
  function Mirrored(u: Matrix): (s: Matrix)
    requires u.rows == u.cols
    ensures s.rows == s.cols == u.rows
    ensures forall i, j :: 0 <= i < u.rows && 0 <= j < u.rows ==>
      s.data[i][j] == if i <= j then u.data[i][j] else u.data[j][i]
  {
    Grid(u.rows, u.rows, seq(u.rows, i requires 0 <= i < u.rows => MirroredRow(u, i)))
  }

  function MirroredRow(u: Matrix, i: nat): (r: Vec)
    requires u.rows == u.cols && i < u.rows
    ensures |r| == u.rows && forall j :: 0 <= j < u.rows ==> r[j] == if i <= j then u.data[i][j] else u.data[j][i]
  {
    seq(u.rows, j requires 0 <= j < u.rows => if i <= j then u.data[i][j] else u.data[j][i])
  }

  /** For a symmetric matrix the mirrored upper triangle is the thresholded matrix, so the quadratic
      form x' P x is that of P itself when P has no small entries. */
  lemma TriangleKeepsQuadraticForm(P: Matrix, c: Csc, x: Vec)
    requires Symmetric(P) && |x| == P.rows && HoldsColumns(P, c, P.cols, true)
    ensures OffsetsRise(c) && |c.colIdxs| == P.cols + 1
    ensures Mirrored(Decode(c, P.rows)) == Thresholded(P)
    ensures Quad(Mirrored(Decode(c, P.rows)), x) == Quad(Thresholded(P), x)
    ensures Thresholded(P) == P ==> Quad(Mirrored(Decode(c, P.rows)), x) == Quad(P, x)
  {
    hide HoldsColumns, Kept, Decode, Thresholded, Mirrored, Bil;
    OneColumnMore(P, c);
    DecodeIsThresholded(P, c, true);
    var u, s, t := Decode(c, P.rows), Mirrored(Decode(c, P.rows)), Thresholded(P);
    forall i, j | 0 <= i < P.rows && 0 <= j < P.rows ensures s.data[i][j] == t.data[i][j] {
      assert P.data[i][j] == P.data[j][i];
      assert s.data[i][j] == if i <= j then u.data[i][j] else u.data[j][i];
    }
    Extensional(s, t);
  }
}
