/** Scan lines of a grid map: which rows are scanned, how the intersections of a line are clipped
    to the map, and which columns they cover. */
module ScanLines {
  import opened PolygonEdges

  /** The centre of the first cell is the origin; rows go towards lower x and columns towards
      lower y. The map is a ring buffer: the first cell is stored at the start index. */
  datatype GridMap = GridMap(origin: Point, res: real, rows: int, cols: int, startRow: int, startCol: int) {
    predicate Valid() {
      res > 0.0 && 0 <= startRow < rows && 0 <= startCol < cols
    }

    function LineX(row: int): real { origin.x - res * row as real }

    function CentreY(col: int): real { origin.y - res * col as real }

    /** The centre of the last column. */
    function Bottom(): real { CentreY(cols - 1) }
  }

  /** Conversion to int, towards zero. */
  function Truncate(x: real): int {
    if x >= 0.0 then x.Floor else -((-x).Floor)
  }

  function Clamp(v: int, lo: int, hi: int): int {
    if v < lo then lo else if hi < v then hi else v
  }

  lemma FloorDivides(d: real, res: real, c: int)
    requires res > 0.0
    ensures c <= (d / res).Floor <==> res * c as real <= d
  {
    var q := d / res;
    assert q * res == d;
    if c as real <= q {
      assert (q - c as real) * res >= 0.0;
    } else {
      assert (c as real - q) * res > 0.0;
    }
  }

  lemma TruncateClamps(x: real, hi: int)
    requires hi >= 0
    ensures Clamp(Truncate(x), 0, hi) == Clamp(x.Floor, 0, hi)
  {
  }

  // ----- columns -----

  function FromColumn(m: GridMap, y: real): (c: int)
    requires m.Valid()
    ensures 0 <= c < m.cols
  {
    Clamp(Truncate((m.origin.y - y + m.res) / m.res), 0, m.cols - 1)
  }

  function ToColumn(m: GridMap, y: real): (c: int)
    requires m.Valid()
    ensures 0 <= c < m.cols
  {
    Clamp(Truncate((m.origin.y - y) / m.res), 0, m.cols - 1)
  }

  /** The first column is the first whose centre is below an intersection inside the map. */
  lemma FromColumnIsBelow(m: GridMap, y: real, c: int)
    requires m.Valid() && 0 <= c < m.cols && y > m.Bottom()
    ensures FromColumn(m, y) <= c <==> m.CentreY(c) < y
  {
    var d := m.origin.y - y + m.res;
    TruncateClamps(d / m.res, m.cols - 1);
    FloorDivides(d, m.res, c + 1);
    FloorDivides(d, m.res, m.cols);
    assert m.res * (c + 1) as real == m.res * c as real + m.res;
    assert m.res * m.cols as real == m.res * (m.cols - 1) as real + m.res;
  }

  /** The last column is the last whose centre is at or above an intersection below the top. */
  lemma ToColumnIsAbove(m: GridMap, y: real, c: int)
    requires m.Valid() && 0 <= c < m.cols && y < m.origin.y
    ensures c <= ToColumn(m, y) <==> y <= m.CentreY(c)
  {
    var d := m.origin.y - y;
    TruncateClamps(d / m.res, m.cols - 1);
    FloorDivides(d, m.res, c);
    FloorDivides(d, m.res, 0);
  }

  function Range(lo: int, hi: int): seq<int>
    decreases hi - lo
  {
    if hi < lo then [] else [lo] + Range(lo + 1, hi)
  }

  lemma {:induction false} RangeMembers(lo: int, hi: int, c: int)
    ensures c in Range(lo, hi) <==> lo <= c <= hi
    decreases hi - lo
  {
    if lo <= hi { RangeMembers(lo + 1, hi, c); }
  }

  /** The columns of the spans between consecutive pairs of intersections. */
  function Columns(m: GridMap, ys: seq<real>): seq<int>
    requires m.Valid()
  {
    if |ys| < 2 then [] else Range(FromColumn(m, ys[0]), ToColumn(m, ys[1])) + Columns(m, ys[2..])
  }

  /** Every pair starts above the last centre and ends below the first. */
  predicate Trimmed(m: GridMap, ys: seq<real>) {
    && Decreasing(ys)
    && (forall i :: 0 <= i < |ys| - 1 ==> ys[i] > m.Bottom())
    && (forall i :: 1 <= i < |ys| ==> ys[i] < m.origin.y)
  }

  lemma TrimmedRest(m: GridMap, ys: seq<real>)
    requires Trimmed(m, ys) && |ys| >= 2
    ensures Trimmed(m, ys[2..]) && Decreasing(ys)
  {
  }

  /** Columns are those whose centre has an odd number of intersections above it; the last one of an
      odd number has no partner. */
  lemma {:induction false} ColumnsByParity(m: GridMap, ys: seq<real>, c: int)
    requires m.Valid() && 0 <= c < m.cols && Trimmed(m, ys)
    ensures c in Columns(m, ys) <==>
            Odd(CountAbove(ys, m.CentreY(c))) && (Odd(|ys|) ==> CountAbove(ys, m.CentreY(c)) < |ys|)
  {
    hide FromColumn, ToColumn, Trimmed, Columns, CountAbove;
    var y := m.CentreY(c);
    NoneAbove(ys, y);
    if |ys| < 2 {
      NoColumns(m, ys, y);
    } else {
      TrimmedRest(m, ys);
      ColumnsByParity(m, ys[2..], c);
      FirstPair(m, ys, c);
      ColumnsStep(m, ys, c);
      CountTwo(ys, y);
    }
  }

  lemma NoColumns(m: GridMap, ys: seq<real>, y: real)
    requires m.Valid() && |ys| < 2
    ensures Columns(m, ys) == [] && (|ys| == 0 ==> CountAbove(ys, y) == 0)
  {
  }

  lemma ColumnsStep(m: GridMap, ys: seq<real>, c: int)
    requires m.Valid() && |ys| >= 2
    ensures c in Columns(m, ys) <==>
            FromColumn(m, ys[0]) <= c <= ToColumn(m, ys[1]) || c in Columns(m, ys[2..])
  {
    hide FromColumn, ToColumn, Range;
    RangeMembers(FromColumn(m, ys[0]), ToColumn(m, ys[1]), c);
  }

  lemma FirstPair(m: GridMap, ys: seq<real>, c: int)
    requires m.Valid() && 0 <= c < m.cols && Trimmed(m, ys) && |ys| >= 2
    ensures FromColumn(m, ys[0]) <= c <= ToColumn(m, ys[1]) <==> ys[1] <= m.CentreY(c) < ys[0]
  {
    hide FromColumn, ToColumn;
    FromColumnIsBelow(m, ys[0], c);
    ToColumnIsAbove(m, ys[1], c);
  }

  lemma CountTwo(ys: seq<real>, y: real)
    requires Decreasing(ys) && |ys| >= 2
    ensures CountAbove(ys, y) == (if ys[0] > y then 1 else 0) + (if ys[1] > y then 1 else 0) + CountAbove(ys[2..], y)
    ensures ys[1] <= y ==> CountAbove(ys[2..], y) == 0
  {
    assert ys[1..][1..] == ys[2..];
    NoneAbove(ys[2..], y);
  }

  predicate Increasing(cs: seq<int>) {
    forall i, j :: 0 <= i < j < |cs| ==> cs[i] < cs[j]
  }

  lemma {:induction false} RangeIncreases(lo: int, hi: int)
    ensures Increasing(Range(lo, hi))
    decreases hi - lo
  {
    if lo <= hi {
      RangeIncreases(lo + 1, hi);
      var rest := Range(lo + 1, hi);
      forall i | 0 <= i < |rest| ensures rest[i] > lo { RangeMembers(lo + 1, hi, rest[i]); }
    }
  }

  /** Spans of a line never overlap, so columns come in strictly increasing order. */
  lemma {:induction false} ColumnsIncrease(m: GridMap, ys: seq<real>)
    requires m.Valid() && Trimmed(m, ys)
    ensures Increasing(Columns(m, ys))
    ensures forall c :: c in Columns(m, ys) ==> |ys| >= 2 && FromColumn(m, ys[0]) <= c < m.cols
  {
    hide FromColumn, ToColumn, Trimmed, Range;
    if |ys| >= 2 {
      var rest := ys[2..];
      var a, b := FromColumn(m, ys[0]), ToColumn(m, ys[1]);
      TrimmedRest(m, ys);
      ColumnsIncrease(m, rest);
      RangeIncreases(a, b);
      var r, cs := Range(a, b), Columns(m, rest);
      forall i | 0 <= i < |r| ensures a <= r[i] <= b { RangeMembers(a, b, r[i]); }
      forall i | 0 <= i < |cs| ensures a <= cs[i] && b < cs[i] {
        assert cs[i] in cs;
        NextSpan(m, ys);
      }
    }
  }

  lemma NextSpan(m: GridMap, ys: seq<real>)
    requires m.Valid() && Trimmed(m, ys) && |ys| >= 4
    ensures ToColumn(m, ys[1]) < FromColumn(m, ys[2]) && FromColumn(m, ys[0]) <= FromColumn(m, ys[2])
  {
    hide FromColumn, ToColumn;
    var b, a := ToColumn(m, ys[1]), FromColumn(m, ys[2]);
    ToColumnIsAbove(m, ys[1], b);
    FromColumnIsBelow(m, ys[2], b);
    FromColumnIsBelow(m, ys[2], a);
    FromColumnIsBelow(m, ys[0], a);
  }

  // ----- clipping to the map -----

  /** Pairs at or above the top are removed from the front. */
  function DropAbove(ys: seq<real>, top: real): (r: seq<real>)
    ensures |r| >= 2 ==> r[0] < top || r[1] < top
  {
    if |ys| >= 2 && ys[0] >= top && ys[1] >= top then DropAbove(ys[2..], top) else ys
  }

  /** Pairs from index k on are removed. */
  function DropFrom(ys: seq<real>, k: nat): seq<real>
    requires k <= |ys|
    decreases |ys|
  {
    if |ys| - k >= 2 then DropFrom(ys[..k] + ys[k + 2..], k) else ys
  }

  function Clipped(m: GridMap, ys: seq<real>): seq<real> {
    var d := DropAbove(ys, m.origin.y);
    NoneAbove(d, m.Bottom());
    DropFrom(d, CountAbove(d, m.Bottom()))
  }

  /** The two erasing loops; the lower bound of the bottom in a decreasing list is the number of
      values above it. */
  method ClipToMap(m: GridMap, intersections: seq<real>) returns (ys: seq<real>)
    requires m.Valid() && Decreasing(intersections)
    ensures ys == Clipped(m, intersections)
  {
    ys := intersections;
    var iter := 0;
    while iter != |ys| && iter + 1 != |ys| && ys[iter] >= m.origin.y && ys[iter + 1] >= m.origin.y
      invariant iter == 0 <= |ys|
      invariant DropAbove(ys, m.origin.y) == DropAbove(intersections, m.origin.y)
      decreases |ys|
    {
      ghost var before := ys;
      ys := ys[..iter] + ys[iter + 1..];
      ys := ys[..iter] + ys[iter + 1..];
      assert ys == before[2..];
    }
    assert ys == DropAbove(intersections, m.origin.y);
    NoneAbove(ys, m.Bottom());
    iter := CountAbove(ys, m.Bottom());
    while iter != |ys| && iter + 1 != |ys|
      invariant iter <= |ys|
      invariant DropFrom(ys, iter) == Clipped(m, intersections)
      decreases |ys|
    {
      ghost var before := ys;
      ys := ys[..iter] + ys[iter + 1..];
      ys := ys[..iter] + ys[iter + 1..];
      assert ys == before[..iter] + before[iter + 2..];
    }
  }

  lemma {:induction false} DroppedAbove(ys: seq<real>, top: real)
    requires Decreasing(ys)
    ensures Decreasing(DropAbove(ys, top)) && (Odd(|DropAbove(ys, top)|) <==> Odd(|ys|))
    ensures forall i :: 1 <= i < |DropAbove(ys, top)| ==> DropAbove(ys, top)[i] < top
  {
    if |ys| >= 2 && ys[0] >= top && ys[1] >= top { DroppedAbove(ys[2..], top); }
  }

  /** Dropping pairs at the top keeps the parity above y, except for y == top itself when the top
      is an intersection with an odd number above it. */
  lemma {:induction false} DropAboveParity(ys: seq<real>, top: real, y: real)
    requires Decreasing(ys) && y <= top
    ensures Odd(CountAbove(DropAbove(ys, top), y)) <==>
            Odd(CountAbove(ys, y)) && (y == top ==> top !in ys)
  {
    if |ys| >= 2 {
      if ys[0] >= top && ys[1] >= top {
        DropAboveParity(ys[2..], top, y);
        DroppedPair(ys, top, y);
      } else if y == top {
        CountTwo(ys, y);
        if ys[0] > top {
          forall i | 0 <= i < |ys| ensures ys[i] != top {
            if i >= 1 { assert ys[1] >= ys[i]; }
          }
        }
      }
    }
  }

  /** The effect of two values at or above the top. */
  lemma DroppedPair(ys: seq<real>, top: real, y: real)
    requires Decreasing(ys) && |ys| >= 2 && ys[0] >= top && ys[1] >= top && y <= top
    ensures Odd(CountAbove(ys, y)) && (y == top ==> top !in ys) <==>
            Odd(CountAbove(ys[2..], y)) && (y == top ==> top !in ys[2..])
  {
    hide CountAbove;
    assert ys == [ys[0], ys[1]] + ys[2..];
    CountTwo(ys, y);
  }

  lemma {:induction false} DropFromIs(ys: seq<real>, k: nat)
    requires k <= |ys|
    ensures DropFrom(ys, k) == if Odd(|ys| - k) then ys[..k] + [ys[|ys| - 1]] else ys[..k]
    decreases |ys|
  {
    if |ys| - k >= 2 {
      var zs := ys[..k] + ys[k + 2..];
      DropFromIs(zs, k);
      assert zs[..k] == ys[..k];
    } else if |ys| - k == 1 {
      assert ys == ys[..k] + [ys[k]];
    } else {
      assert ys == ys[..k];
    }
  }

  /** What is left of a decreasing list once pairs not above the bottom are dropped. */
  lemma DropFromKeeps(d: seq<real>, bottom: real, k: nat, y: real)
    requires Decreasing(d) && k == CountAbove(d, bottom) <= |d| && y >= bottom
    ensures forall i :: 0 <= i < |DropFrom(d, k)| - 1 ==> DropFrom(d, k)[i] > bottom
    ensures |DropFrom(d, k)| <= |d| && (Odd(|DropFrom(d, k)|) <==> Odd(|d|))
    ensures CountAbove(DropFrom(d, k), y) == CountAbove(d, y)
  {
    hide DropFrom, CountAbove, Odd, Decreasing;
    DropFromIs(d, k);
    OddDifference(|d|, k);
    forall i | 0 <= i < |d| ensures d[i] > bottom <==> i < k { CountOfDecreasing(d, bottom, i); }
    CountOfFront(d, k, y);
    if Odd(|d| - k) {
      NotOddZero();
      CountOfLast(d[..k], d[|d| - 1], y);
    }
  }

  lemma OddDifference(n: nat, k: nat)
    requires k <= n
    ensures Odd(n - k) ==> (Odd(k + 1) <==> Odd(n))
    ensures !Odd(n - k) ==> (Odd(k) <==> Odd(n))
  {
  }

  lemma NotOddZero()
    ensures !Odd(0)
  {
  }

  /** Values that are not above y may be cut off. */
  lemma CountOfFront(d: seq<real>, k: nat, y: real)
    requires k <= |d| && forall i :: k <= i < |d| ==> d[i] <= y
    ensures CountAbove(d[..k], y) == CountAbove(d, y)
  {
    hide CountAbove;
    assert d == d[..k] + d[k..];
    CountConcat(d[..k], d[k..], y);
    NoneAbove(d[k..], y);
  }

  lemma CountOfLast(d: seq<real>, last: real, y: real)
    requires last <= y
    ensures CountAbove(d + [last], y) == CountAbove(d, y)
  {
    hide CountAbove;
    CountConcat(d, [last], y);
    NoneAbove([last], y);
  }

  lemma DropFromOrder(d: seq<real>, k: nat, top: real)
    requires Decreasing(d) && k <= |d| && forall i :: 1 <= i < |d| ==> d[i] < top
    ensures Decreasing(DropFrom(d, k)) && forall i :: 1 <= i < |DropFrom(d, k)| ==> DropFrom(d, k)[i] < top
  {
    hide DropFrom;
    DropFromIs(d, k);
  }

  /** Clipping keeps the order and leaves only spans that touch the map. */
  lemma ClippedIsTrimmed(m: GridMap, ys: seq<real>)
    requires m.Valid() && Decreasing(ys)
    ensures Trimmed(m, Clipped(m, ys)) && (Odd(|Clipped(m, ys)|) <==> Odd(|ys|))
  {
    hide DropAbove, DropFrom, CountAbove;
    var d := DropAbove(ys, m.origin.y);
    DroppedAbove(ys, m.origin.y);
    NoneAbove(d, m.Bottom());
    DropFromKeeps(d, m.Bottom(), CountAbove(d, m.Bottom()), m.Bottom());
    DropFromOrder(d, CountAbove(d, m.Bottom()), m.origin.y);
  }

  /** The dropped values are all above y. */
  lemma {:induction false} DropAboveShift(ys: seq<real>, top: real, y: real)
    requires Decreasing(ys) && y <= top && (y == top ==> top !in ys)
    ensures CountAbove(ys, y) - CountAbove(DropAbove(ys, top), y) == |ys| - |DropAbove(ys, top)|
    ensures !Odd(|ys| - |DropAbove(ys, top)|)
  {
    hide CountAbove, Odd;
    if |ys| >= 2 && ys[0] >= top && ys[1] >= top {
      assert ys == [ys[0], ys[1]] + ys[2..];
      CountTwo(ys, y);
      DropAboveShift(ys[2..], top, y);
      OddAgain(|ys[2..]| - |DropAbove(ys, top)|);
    } else {
      NotOddZero();
    }
  }

  lemma OddAgain(n: int)
    ensures Odd(n + 2) <==> Odd(n)
  {
  }

  /** Whether an intersection above the bottom has lost its partner, and only that one is above y. */
  predicate Unpaired(ys: seq<real>, bottom: real, y: real) {
    Odd(|ys|) && Odd(CountAbove(ys, bottom)) && CountAbove(ys, y) >= CountAbove(ys, bottom)
  }

  lemma DropFromPaired(d: seq<real>, bottom: real, k: nat, y: real)
    requires Decreasing(d) && k == CountAbove(d, bottom) <= |d| && y >= bottom
    ensures Odd(|DropFrom(d, k)|) && CountAbove(d, y) >= |DropFrom(d, k)| <==> Unpaired(d, bottom, y)
  {
    hide DropFrom;
    DropFromIs(d, k);
    CountMonotone(d, bottom, y);
  }

  lemma {:induction false} CountMonotone(ys: seq<real>, lo: real, hi: real)
    requires lo <= hi
    ensures CountAbove(ys, hi) <= CountAbove(ys, lo)
  {
    if ys != [] { CountMonotone(ys[1..], lo, hi); }
  }

  lemma ClipParity(m: GridMap, ys: seq<real>, c: int)
    requires m.Valid() && Decreasing(ys) && 0 <= c < m.cols
    ensures Odd(CountAbove(Clipped(m, ys), m.CentreY(c))) <==>
            Odd(CountAbove(ys, m.CentreY(c))) && (c == 0 ==> m.origin.y !in ys)
  {
    hide DropAbove, DropFrom, CountAbove;
    var d := DropAbove(ys, m.origin.y);
    CentreInside(m, c);
    DroppedAbove(ys, m.origin.y);
    DropAboveParity(ys, m.origin.y, m.CentreY(c));
    NoneAbove(d, m.Bottom());
    DropFromKeeps(d, m.Bottom(), CountAbove(d, m.Bottom()), m.CentreY(c));
  }

  lemma ClipUnpaired(m: GridMap, ys: seq<real>, c: int)
    requires m.Valid() && Decreasing(ys) && 0 <= c < m.cols && (c == 0 ==> m.origin.y !in ys)
    ensures Odd(|Clipped(m, ys)|) && CountAbove(Clipped(m, ys), m.CentreY(c)) >= |Clipped(m, ys)| <==>
            Unpaired(ys, m.Bottom(), m.CentreY(c))
  {
    hide DropAbove, DropFrom, CountAbove;
    var d, top, bottom, y := DropAbove(ys, m.origin.y), m.origin.y, m.Bottom(), m.CentreY(c);
    CentreInside(m, c);
    CentreInside(m, 0);
    DroppedAbove(ys, top);
    NoneAbove(d, bottom);
    DropFromKeeps(d, bottom, CountAbove(d, bottom), y);
    DropFromPaired(d, bottom, CountAbove(d, bottom), y);
    DropAboveShift(ys, top, y);
    DropAboveShift(ys, top, bottom);
    ShiftedUnpaired(ys, d, bottom, y);
  }

  lemma ShiftedUnpaired(ys: seq<real>, d: seq<real>, bottom: real, y: real)
    requires !Odd(|ys| - |d|)
    requires CountAbove(ys, y) - CountAbove(d, y) == CountAbove(ys, bottom) - CountAbove(d, bottom) == |ys| - |d|
    ensures Unpaired(d, bottom, y) <==> Unpaired(ys, bottom, y)
  {
    hide CountAbove;
  }

  lemma CentreInside(m: GridMap, c: int)
    requires m.Valid() && 0 <= c < m.cols
    ensures m.Bottom() <= m.CentreY(c) <= m.origin.y
    ensures m.CentreY(c) == m.origin.y <==> c == 0
  {
    if c > 0 { assert m.res * c as real > 0.0; }
    assert m.res * (m.cols - 1) as real - m.res * c as real == m.res * (m.cols - 1 - c) as real >= 0.0;
  }

  /** The columns of any line are those whose centre has an odd number of intersections above it,
      with two exceptions: in the first column a centre lying exactly on an intersection is left out,
      wherever that is in the list; and when the line has an odd number of intersections, and so has
      its part above the last centre, no column below that part is covered. */
  lemma LineColumns(m: GridMap, ys: seq<real>, c: int)
    requires m.Valid() && Decreasing(ys) && 0 <= c < m.cols
    ensures c in Columns(m, Clipped(m, ys)) <==>
            Odd(CountAbove(ys, m.CentreY(c))) && (c == 0 ==> m.origin.y !in ys) &&
            !Unpaired(ys, m.Bottom(), m.CentreY(c))
  {
    hide Columns, Clipped, CountAbove, Unpaired;
    ClippedIsTrimmed(m, ys);
    ColumnsByParity(m, Clipped(m, ys), c);
    ClipParity(m, ys, c);
    if c == 0 ==> m.origin.y !in ys { ClipUnpaired(m, ys, c); }
  }

  // ----- rows -----

  function RowOf(m: GridMap, x: real): (r: int)
    requires m.Valid()
    ensures 0 <= r < m.rows
  {
    Clamp(Truncate((m.origin.x - x + m.res) / m.res), 0, m.rows - 1)
  }

  /** The lowest x of the edges. */
  function MinX(edges: seq<Edge>): (x: real)
    requires |edges| >= 1
    ensures forall e :: e in edges ==> x <= e.second.x
  {
    if |edges| == 1 then edges[0].second.x
    else
      assert edges == [edges[0]] + edges[1..];
      var x := MinX(edges[1..]);
      if edges[0].second.x <= x then edges[0].second.x else x
  }

  method CalculateRowRange(m: GridMap, edges: seq<Edge>) returns (minRow: int, maxRow: int)
    requires m.Valid() && |edges| >= 1
    ensures minRow == RowOf(m, edges[0].first.x) && maxRow == RowOf(m, MinX(edges))
  {
    var minVertexX := edges[|edges| - 1].second.x;
    var i := |edges| - 1;
    while i > 0
      invariant 0 <= i < |edges| && minVertexX == MinX(edges[i..])
    {
      i := i - 1;
      assert edges[i..][1..] == edges[i + 1..];
      if edges[i].second.x <= minVertexX { minVertexX := edges[i].second.x; }
    }
    assert edges[0..] == edges;
    minRow := RowOf(m, edges[0].first.x);
    maxRow := RowOf(m, minVertexX);
  }

  lemma ClampAtMost(f: int, hi: int, row: int)
    requires 0 <= row <= hi
    ensures Clamp(f, 0, hi) <= row <==> f < row + 1 || row == hi
  {
  }

  lemma ClampAtLeast(f: int, hi: int, row: int)
    requires 0 <= row <= hi
    ensures row <= f ==> row <= Clamp(f, 0, hi)
  {
  }

  lemma LineStep(m: GridMap, row: int)
    ensures m.res * (row + 1) as real == m.origin.x - m.LineX(row) + m.res
    ensures m.res * row as real == m.origin.x - m.LineX(row)
  {
    Successor(m.res, row);
  }

  lemma Successor(r: real, k: int)
    ensures r * (k + 1) as real == r * k as real + r
  {
  }

  /** The row of a vertex is the first whose line is below it, or the last row. */
  lemma RowBelowIff(m: GridMap, x: real, row: int)
    requires m.Valid() && 0 <= row < m.rows
    ensures RowOf(m, x) <= row <==> m.LineX(row) < x || row == m.rows - 1
  {
    hide Truncate, Clamp, GridMap.LineX;
    var d := m.origin.x - x + m.res;
    TruncateClamps(d / m.res, m.rows - 1);
    ClampAtMost((d / m.res).Floor, m.rows - 1, row);
    FloorDivides(d, m.res, row + 1);
    LineStep(m, row);
  }

  /** No row whose line is at or above a vertex comes after the row of the vertex. */
  lemma RowNotBelow(m: GridMap, x: real, row: int)
    requires m.Valid() && 0 <= row < m.rows && x <= m.LineX(row)
    ensures row <= RowOf(m, x)
  {
    hide Truncate, Clamp, GridMap.LineX;
    var d := m.origin.x - x + m.res;
    TruncateClamps(d / m.res, m.rows - 1);
    ClampAtLeast((d / m.res).Floor, m.rows - 1, row);
    FloorDivides(d, m.res, row);
    LineStep(m, row);
  }

  /** Every row of the map whose line is at or above the lowest vertex and below the highest is
      scanned. */
  lemma RowRangeCovers(m: GridMap, minX: real, maxX: real, row: int)
    requires m.Valid() && 0 <= row < m.rows && minX <= m.LineX(row) < maxX
    ensures RowOf(m, maxX) <= row <= RowOf(m, minX)
  {
    hide RowOf;
    RowBelowIff(m, maxX, row);
    RowNotBelow(m, minX, row);
  }

  lemma RowsDescend(m: GridMap, minX: real, maxX: real)
    requires m.Valid() && minX <= maxX
    ensures RowOf(m, maxX) <= RowOf(m, minX)
  {
    var d, e := m.origin.x - maxX + m.res, m.origin.x - minX + m.res;
    TruncateClamps(d / m.res, m.rows - 1);
    TruncateClamps(e / m.res, m.rows - 1);
    FloorDivides(d, m.res, (d / m.res).Floor);
    FloorDivides(e, m.res, (d / m.res).Floor);
  }

  // ----- all lines -----

  /** The clipped intersections of one row. */
  function LineOf(m: GridMap, edges: seq<Edge>, row: int): seq<real>
    requires AllOrdered(edges)
  {
    Clipped(m, SortDown(Hits(edges, m.LineX(row))))
  }

  method CalculateIntersectionsPerLine(m: GridMap, edges: seq<Edge>, fromRow: int, toRow: int)
      returns (lines: seq<seq<real>>)
    requires m.Valid() && AllOrdered(edges) && Sorted(edges) && fromRow <= toRow
    ensures |lines| == toRow - fromRow + 1
    ensures forall i :: 0 <= i < |lines| ==> lines[i] == LineOf(m, edges, fromRow + i)
  {
    hide AllOrdered, Sorted, Clipped, SortDown, Hits;
    lines := [];
    var row := fromRow;
    while row <= toRow
      invariant fromRow <= row <= toRow + 1 && |lines| == row - fromRow
      invariant forall i :: 0 <= i < |lines| ==> lines[i] == LineOf(m, edges, fromRow + i)
    {
      var ys := LineIntersections(edges, m.LineX(row));
      SortedDown(ys);
      ys := ClipToMap(m, SortDown(ys));
      lines := lines + [ys];
      row := row + 1;
    }
  }
}
