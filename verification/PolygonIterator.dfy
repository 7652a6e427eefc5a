/** The iterator over the cells of a grid map inside a polygon.

    `Scan` is the list of cells it visits; the cursor class refines it, and `ScanIsPointInPolygon`
    compares it with the even-odd rule applied to each cell centre. */
module PolygonIterator {
  import opened PolygonEdges
  import opened ScanLines

  datatype Cell = Cell(row: int, col: int) {
    predicate Inside(m: GridMap) { 0 <= row < m.rows && 0 <= col < m.cols }

    predicate Precedes(c: Cell) { row < c.row || (row == c.row && col < c.col) }
  }

  /** Where a cell is stored: the map wraps around. */
  function Stored(m: GridMap, c: Cell): (int, int)
    requires m.Valid()
  {
    ((m.startRow + c.row) % m.rows, (m.startCol + c.col) % m.cols)
  }

  /** The index of a cell in the buffer: its row and column after those the map starts at, less a whole
      turn where that leaves the buffer. */
  predicate StoredAt(m: GridMap, c: Cell, index: (int, int)) {
    && 0 <= index.0 < m.rows && 0 <= index.1 < m.cols
    && (index.0 == m.startRow + c.row || index.0 == m.startRow + c.row - m.rows)
    && (index.1 == m.startCol + c.col || index.1 == m.startCol + c.col - m.cols)
  }

  /** Every cell of the map has exactly one such index. */
  lemma StoredIsIndex(m: GridMap, c: Cell, index: (int, int))
    requires m.Valid() && c.Inside(m)
    ensures StoredAt(m, c, index) <==> index == Stored(m, c)
  {
    WrapsOnce(m.startRow, c.row, m.rows);
    WrapsOnce(m.startCol, c.col, m.cols);
  }

  lemma WrapsOnce(s: int, a: int, n: int)
    requires 0 <= s < n && 0 <= a < n
    ensures (s + a) % n == if s + a < n then s + a else s + a - n
  {
    var q, r, k := (s + a) / n, (s + a) % n, if s + a < n then 0 else 1;
    assert s + a == q * n + r && 0 <= r < n;
    assert s + a - k * n - r == (q - k) * n;
    SmallMultiple(q - k, n);
  }

  lemma StoredOnce(m: GridMap, a: Cell, b: Cell)
    requires m.Valid() && a.Inside(m) && b.Inside(m) && Stored(m, a) == Stored(m, b)
    ensures a == b
  {
    WrapOnce(m.startRow, a.row, b.row, m.rows);
    WrapOnce(m.startCol, a.col, b.col, m.cols);
  }

  lemma WrapOnce(s: int, a: int, b: int, n: int)
    requires 0 <= a < n && 0 <= b < n && (s + a) % n == (s + b) % n
    ensures a == b
  {
    var p, q, r := (s + a) / n, (s + b) / n, (s + a) % n;
    assert s + a == p * n + r && s + b == q * n + r;
    assert a - b == (p - q) * n;
    SmallMultiple(p - q, n);
  }

  lemma MultipleGrows(k: int, n: int)
    requires k >= 1 && n >= 0
    ensures k * n >= n
  {
  }

  lemma SmallMultiple(k: int, n: int)
    requires 0 <= n && -n < k * n < n
    ensures k == 0
  {
    if k != 0 { MultipleGrows(if k > 0 then k else -k, n); }
  }

  // ----- the cells visited -----

  function CellsOf(row: int, cs: seq<int>): (cells: seq<Cell>)
    ensures |cells| == |cs| && forall i :: 0 <= i < |cs| ==> cells[i] == Cell(row, cs[i])
  {
    seq(|cs|, i requires 0 <= i < |cs| => Cell(row, cs[i]))
  }

  /** The cells of the lines from l on; the first line is on the given row. */
  function Cells(m: GridMap, lines: seq<seq<real>>, first: int, l: int): seq<Cell>
    requires m.Valid() && 0 <= l
    decreases |lines| - l
  {
    if l >= |lines| then [] else CellsOf(first + l, Columns(m, lines[l])) + Cells(m, lines, first, l + 1)
  }

  function LinesOf(m: GridMap, edges: seq<Edge>, fromRow: int, toRow: int): (lines: seq<seq<real>>)
    requires AllOrdered(edges) && fromRow <= toRow
    ensures |lines| == toRow - fromRow + 1
    ensures forall i :: 0 <= i < |lines| ==> lines[i] == LineOf(m, edges, fromRow + i)
  {
    seq(toRow - fromRow + 1, i requires 0 <= i => LineOf(m, edges, fromRow + i))
  }

  /** The first vertex is repeated at the end. */
  function Close(polygon: seq<Point>): (vs: seq<Point>)
    requires |polygon| >= 1
    ensures |vs| >= 1 && vs[0] == vs[|vs| - 1]
    ensures forall x :: Clear(polygon, x) ==> Clear(vs, x)
  {
    if polygon[0] != polygon[|polygon| - 1] then polygon + [polygon[0]] else polygon
  }

  function FromRow(m: GridMap, edges: seq<Edge>): int
    requires m.Valid() && |edges| >= 1
  {
    RowOf(m, edges[0].first.x)
  }

  function ToRow(m: GridMap, edges: seq<Edge>): int
    requires m.Valid() && |edges| >= 1
  {
    RowOf(m, MinX(edges))
  }

  lemma RangeOfRows(m: GridMap, edges: seq<Edge>)
    requires m.Valid() && |edges| >= 1
    ensures FromRow(m, edges) == RowOf(m, edges[0].first.x) && ToRow(m, edges) == RowOf(m, MinX(edges))
  {
  }

  lemma RowsInOrder(m: GridMap, edges: seq<Edge>)
    requires m.Valid() && |edges| >= 1 && AllOrdered(edges)
    ensures 0 <= FromRow(m, edges) <= ToRow(m, edges) < m.rows
  {
    assert edges[0] in edges;
    RowsDescend(m, MinX(edges), edges[0].first.x);
  }

  lemma SameLines(m: GridMap, edges: seq<Edge>, fromRow: int, toRow: int, lines: seq<seq<real>>)
    requires AllOrdered(edges) && fromRow <= toRow && |lines| == toRow - fromRow + 1
    requires forall i :: 0 <= i < |lines| ==> lines[i] == LineOf(m, edges, fromRow + i)
    ensures lines == LinesOf(m, edges, fromRow, toRow)
  {
    hide LineOf, AllOrdered;
  }

  /** All cells visited for the sorted edges of a polygon. */
  function EdgeCells(m: GridMap, edges: seq<Edge>): seq<Cell>
    requires m.Valid() && AllOrdered(edges)
  {
    if edges == [] then []
    else
      RowsInOrder(m, edges);
      Cells(m, LinesOf(m, edges, FromRow(m, edges), ToRow(m, edges)), FromRow(m, edges), 0)
  }

  function Scan(m: GridMap, polygon: seq<Point>): seq<Cell>
    requires m.Valid()
  {
    if |polygon| < 3 then []
    else
      EdgesSorted(EdgesOf(Close(polygon)));
      OrderedPermutation(EdgesOf(Close(polygon)), SortEdges(EdgesOf(Close(polygon))));
      EdgeCells(m, SortEdges(EdgesOf(Close(polygon))))
  }

  // ----- order and membership -----

  ghost predicate RowMajor(cells: seq<Cell>) {
    forall i, j :: 0 <= i < j < |cells| ==> cells[i].Precedes(cells[j])
  }

  ghost predicate AllTrimmed(m: GridMap, lines: seq<seq<real>>) {
    forall i :: 0 <= i < |lines| ==> Trimmed(m, lines[i])
  }

  lemma {:induction false} CellsRowMajor(m: GridMap, lines: seq<seq<real>>, first: int, l: int)
    requires m.Valid() && AllTrimmed(m, lines) && 0 <= l
    ensures RowMajor(Cells(m, lines, first, l))
    ensures forall c :: c in Cells(m, lines, first, l) ==> first + l <= c.row < first + |lines| && 0 <= c.col < m.cols
    decreases |lines| - l
  {
    hide Columns, Trimmed, FromColumn;
    if l < |lines| {
      var cs := Columns(m, lines[l]);
      var here, later := CellsOf(first + l, cs), Cells(m, lines, first, l + 1);
      CellsRowMajor(m, lines, first, l + 1);
      ColumnsIncrease(m, lines[l]);
      forall i | 0 <= i < |here| ensures here[i].row == first + l && 0 <= here[i].col < m.cols {
        assert cs[i] in cs;
      }
      forall i | 0 <= i < |later| ensures later[i].row > first + l { assert later[i] in later; }
    }
  }

  lemma {:induction false} CellsMember(m: GridMap, lines: seq<seq<real>>, first: int, l: int, c: Cell)
    requires m.Valid() && 0 <= l
    ensures c in Cells(m, lines, first, l) <==>
            first + l <= c.row < first + |lines| && c.col in Columns(m, lines[c.row - first])
    decreases |lines| - l
  {
    hide Columns;
    if l < |lines| {
      var cs := Columns(m, lines[l]);
      var here := CellsOf(first + l, cs);
      CellsMember(m, lines, first, l + 1, c);
      assert c in here <==> c.row == first + l && c.col in cs by {
        if c.row == first + l && c.col in cs {
          var i :| 0 <= i < |cs| && cs[i] == c.col;
          assert here[i] == c;
        }
      }
    }
  }

  lemma LinesTrimmed(m: GridMap, edges: seq<Edge>, fromRow: int, toRow: int)
    requires m.Valid() && AllOrdered(edges) && fromRow <= toRow
    ensures AllTrimmed(m, LinesOf(m, edges, fromRow, toRow))
  {
    hide Clipped, SortDown, Hits, Trimmed;
    var lines := LinesOf(m, edges, fromRow, toRow);
    forall i | 0 <= i < |lines| ensures Trimmed(m, lines[i]) {
      SortedDown(Hits(edges, m.LineX(fromRow + i)));
      ClippedIsTrimmed(m, SortDown(Hits(edges, m.LineX(fromRow + i))));
    }
  }

  /** Cells are visited in row-major order, so each at most once, and all are cells of the map. */
  lemma ScanIsRowMajor(m: GridMap, polygon: seq<Point>)
    requires m.Valid()
    ensures var cells := Scan(m, polygon);
            forall i, j :: 0 <= i < j < |cells| ==>
              cells[i].row < cells[j].row || (cells[i].row == cells[j].row && cells[i].col < cells[j].col)
    ensures forall c :: c in Scan(m, polygon) ==> c.Inside(m)
  {
    hide SortEdges, EdgesOf, Cells, FromRow, ToRow, Close, LinesOf, AllOrdered;
    if |polygon| >= 3 {
      var edges := SortEdges(EdgesOf(Close(polygon)));
      EdgesSorted(EdgesOf(Close(polygon)));
      OrderedPermutation(EdgesOf(Close(polygon)), edges);
      if edges != [] {
        RowsInOrder(m, edges);
        LinesTrimmed(m, edges, FromRow(m, edges), ToRow(m, edges));
        CellsRowMajor(m, LinesOf(m, edges, FromRow(m, edges), ToRow(m, edges)), FromRow(m, edges), 0);
      }
    }
  }

  /** On any scanned line the cells visited are those whose centre has an odd number of intersections
      above it, up to the two exceptions of `LineColumns`. */
  lemma LineCells(m: GridMap, edges: seq<Edge>, c: Cell)
    requires m.Valid() && AllOrdered(edges) && c.Inside(m) && edges != []
    ensures var ys := SortDown(Hits(edges, m.LineX(c.row)));
            c in EdgeCells(m, edges) <==>
              FromRow(m, edges) <= c.row <= ToRow(m, edges) && Odd(CountAbove(ys, m.CentreY(c.col))) &&
              (c.col == 0 ==> m.origin.y !in ys) && !Unpaired(ys, m.Bottom(), m.CentreY(c.col))
  {
    hide Cells, FromRow, ToRow, LinesOf, AllOrdered, Columns, Clipped, SortDown, Hits, CountAbove, Odd, Unpaired;
    RowsInOrder(m, edges);
    var a, b := FromRow(m, edges), ToRow(m, edges);
    CellsMember(m, LinesOf(m, edges, a, b), a, 0, c);
    SortedDown(Hits(edges, m.LineX(c.row)));
    LineColumns(m, SortDown(Hits(edges, m.LineX(c.row))), c.col);
  }

  /** A row that meets an edge is scanned if and only if its line is below the highest vertex or it is
      the last row of the map. */
  lemma RowScannedIff(m: GridMap, edges: seq<Edge>, row: int)
    requires m.Valid() && AllOrdered(edges) && Sorted(edges) && edges != [] && 0 <= row < m.rows
    requires Hits(edges, m.LineX(row)) != []
    ensures FromRow(m, edges) <= row <= ToRow(m, edges) <==>
            edges[0].first.x > m.LineX(row) || row == m.rows - 1
  {
    hide Hits, RowOf;
    var x := m.LineX(row);
    if forall i :: 0 <= i < |edges| ==> edges[i].second.x > x { HitsAbove(edges, x); }
    var i :| 0 <= i < |edges| && edges[i].second.x <= x;
    assert edges[i] in edges;
    RowBelowIff(m, edges[0].first.x, row);
    RowNotBelow(m, MinX(edges), row);
  }

  /** Some vertex is above the line. */
  predicate RisesAbove(vs: seq<Point>, x: real) {
    exists i :: 0 <= i < |vs| && vs[i].x > x
  }

  /** Without an edge above the line the chain is level or stays at or below it. */
  lemma {:induction false} NoneRises(vs: seq<Point>, x: real)
    requires |vs| >= 1 && forall e :: e in EdgesOf(vs) ==> e.first.x <= x
    ensures (EdgesOf(vs) == [] && forall i :: 0 <= i < |vs| ==> vs[i].x == vs[0].x) || !RisesAbove(vs, x)
  {
    if |vs| >= 2 {
      var rest := vs[1..];
      assert forall e :: e in EdgesOf(rest) ==> e in EdgesOf(vs);
      NoneRises(rest, x);
      var es := EdgeBetween(vs[0], vs[1]);
      if es != [] { assert es[0] in EdgesOf(vs); }
      forall i | 0 <= i < |vs| ensures vs[i] == if i == 0 then vs[0] else rest[i - 1] { }
    }
  }

  lemma {:induction false} EdgeEnds(vs: seq<Point>, e: Edge)
    requires e in EdgesOf(vs)
    ensures e.first in vs && e.second in vs
  {
    if |vs| >= 2 && e !in EdgeBetween(vs[0], vs[1]) { EdgeEnds(vs[1..], e); }
  }

  /** The first of the sorted edges is above the line exactly when some vertex is. */
  lemma FirstEdgeRises(vs: seq<Point>, edges: seq<Edge>, x: real)
    requires |vs| >= 1 && edges != [] && multiset(edges) == multiset(EdgesOf(vs)) && Sorted(edges)
    ensures edges[0].first.x > x <==> RisesAbove(vs, x)
  {
    hide EdgesOf;
    assert edges[0] in multiset(edges);
    EdgeEnds(vs, edges[0]);
    if edges[0].first.x <= x {
      forall e | e in EdgesOf(vs) ensures e.first.x <= x { assert e in multiset(edges); }
      NoneRises(vs, x);
    }
  }

  /** How many intersections the iterator sees above y: the sides crossed by a ray from (x, y), and
      once more those that end above it. */
  function SeenAbove(vs: seq<Point>, x: real, y: real): nat {
    Crossings(vs, x, y) + EndsAbove(vs, x, y)
  }

  /** The cells of a closed polygon on a line that an odd number of sides end on: the last
      intersection above the bottom of the map has no partner. */
  predicate LostPair(m: GridMap, vs: seq<Point>, x: real, y: real) {
    Odd(LowerEnds(vs, x)) && Odd(SeenAbove(vs, x, m.Bottom())) && SeenAbove(vs, x, y) >= SeenAbove(vs, x, m.Bottom())
  }

  /** Every cell the iterator visits, for any polygon and any line, vertices included. */
  predicate Visited(m: GridMap, vs: seq<Point>, c: Cell) {
    var x, y := m.LineX(c.row), m.CentreY(c.col);
    && (RisesAbove(vs, x) || c.row == m.rows - 1)
    && Odd(SeenAbove(vs, x, y))
    && (c.col == 0 ==> !OnSide(vs, x, y) && !EndAt(vs, x, y))
    && !LostPair(m, vs, x, y)
  }

  lemma ScanIsVisited(m: GridMap, polygon: seq<Point>, c: Cell)
    requires m.Valid() && |polygon| >= 3 && c.Inside(m)
    ensures c in Scan(m, polygon) <==> Visited(m, Close(polygon), c)
  {
    hide SortEdges, EdgesOf, Crossings, EndsAbove, OnSide, EndAt, LowerEnds, EdgeCells, Hits, CountAbove;
    hide SortDown, FromRow, ToRow, RisesAbove, Sorted, AllOrdered, Close, Clear;
    var vs, x, y := Close(polygon), m.LineX(c.row), m.CentreY(c.col);
    var edges := SortEdges(EdgesOf(vs));
    EdgesSorted(EdgesOf(vs));
    OrderedPermutation(EdgesOf(vs), edges);
    ClosedPolygonLine(vs, edges, x, y);
    ClosedPolygonLine(vs, edges, x, m.Bottom());
    CentreInside(m, c.col);
    SortedDown(Hits(edges, x));
    NoneAbove(SortDown(Hits(edges, x)), y);
    if edges == [] {
      NoHits(x);
      NoCells(m);
    } else {
      LineCells(m, edges, c);
      if Hits(edges, x) != [] {
        RowScannedIff(m, edges, c.row);
        FirstEdgeRises(vs, edges, x);
      }
    }
  }

  /** On a line that an even number of sides end on from above, in particular on one that touches no
      vertex, the cells visited are those that see an odd number of intersections above them, except
      cells of the first column that lie on one. */
  lemma EvenLine(m: GridMap, polygon: seq<Point>, c: Cell)
    requires m.Valid() && |polygon| >= 3 && c.Inside(m) && !Odd(LowerEnds(Close(polygon), m.LineX(c.row)))
    ensures var vs, x, y := Close(polygon), m.LineX(c.row), m.CentreY(c.col);
            c in Scan(m, polygon) <==>
              (RisesAbove(vs, x) || c.row == m.rows - 1) && Odd(SeenAbove(vs, x, y)) &&
              (c.col == 0 ==> !OnSide(vs, x, y) && !EndAt(vs, x, y))
  {
    hide SeenAbove, Scan, RisesAbove, LowerEnds, OnSide, EndAt, Close;
    ScanIsVisited(m, polygon, c);
  }

  lemma {:induction false} NothingCrossed(vs: seq<Point>, x: real, y: real)
    requires Clear(vs, x) && !RisesAbove(vs, x)
    ensures Crossings(vs, x, y) == 0
  {
    if |vs| >= 2 {
      var rest := vs[1..];
      assert forall i :: 0 <= i < |rest| ==> rest[i] == vs[i + 1];
      NothingCrossed(rest, x, y);
    }
  }

  /** A row whose line touches no vertex is filled by the even-odd rule: a cell is visited exactly
      when a ray from its centre crosses the polygon an odd number of times. The one exception is
      a cell of the first column whose centre lies on a side. */
  lemma ScanIsPointInPolygon(m: GridMap, polygon: seq<Point>, c: Cell)
    requires m.Valid() && |polygon| >= 3 && c.Inside(m) && Clear(polygon, m.LineX(c.row))
    ensures c in Scan(m, polygon) <==>
            Odd(Crossings(Close(polygon), m.LineX(c.row), m.CentreY(c.col))) &&
            (c.col == 0 ==> !OnSide(Close(polygon), m.LineX(c.row), m.CentreY(c.col)))
  {
    hide Scan, RisesAbove, LowerEnds, EndsAbove, Crossings, OnSide, EndAt, Clear;
    var vs, x, y := Close(polygon), m.LineX(c.row), m.CentreY(c.col);
    NoEnds(vs, x, y);
    EvenLine(m, polygon, c);
    if !RisesAbove(vs, x) { NothingCrossed(vs, x, y); }
  }

  lemma NoCells(m: GridMap)
    requires m.Valid()
    ensures EdgeCells(m, []) == []
  {
  }

  // ----- a cell on a side in the first column -----

  const EXAMPLE_MAP := GridMap(Point(0.0, 0.0), 1.0, 1, 2, 0, 0)

  /** A unit square around x = 0 with its lower side at y. */
  function UnitSquare(y: real): seq<Point> {
    [Point(0.5, y), Point(-0.5, y), Point(-0.5, y + 1.0), Point(0.5, y + 1.0)]
  }

  /** From its lower side a unit square has one side above. */
  lemma SquareCrossings(y: real)
    ensures var vs := Close(UnitSquare(y));
            Clear(UnitSquare(y), 0.0) && Crossings(vs, 0.0, y) == 1 && OnSide(vs, 0.0, y)
  {
    var vs := Close(UnitSquare(y));
    assert vs == UnitSquare(y) + [Point(0.5, y)];
    assert CrossingY(vs[0], vs[1], 0.0) == y && CrossingY(vs[2], vs[3], 0.0) == y + 1.0;
    assert SideThrough(vs[0], vs[1], 0.0, y);
    assert vs[3..][1..] == vs[4..] && vs[2..][1..] == vs[3..] && vs[1..][1..] == vs[2..];
    assert Crossings(vs[4..], 0.0, y) == 0;
    assert Crossings(vs[3..], 0.0, y) == 0;
    assert Crossings(vs[2..], 0.0, y) == 1;
    assert Crossings(vs[1..], 0.0, y) == 1;
  }

  /** A square whose lower side runs through the centre of a cell in the first column: the cell is not
      visited, but the same square one column further is. */
  lemma FirstColumnExample()
    ensures Cell(0, 0) !in Scan(EXAMPLE_MAP, UnitSquare(0.0)) && Cell(0, 1) in Scan(EXAMPLE_MAP, UnitSquare(-1.0))
  {
    hide Scan, UnitSquare, Close, Clear, Crossings, OnSide;
    SquareCrossings(0.0);
    SquareCrossings(-1.0);
    assert |UnitSquare(0.0)| == |UnitSquare(-1.0)| == 4 by { SquareSize(0.0); SquareSize(-1.0); }
    assert EXAMPLE_MAP.LineX(0) == 0.0 && EXAMPLE_MAP.CentreY(0) == 0.0 && EXAMPLE_MAP.CentreY(1) == -1.0;
    ScanIsPointInPolygon(EXAMPLE_MAP, UnitSquare(0.0), Cell(0, 0));
    ScanIsPointInPolygon(EXAMPLE_MAP, UnitSquare(-1.0), Cell(0, 1));
  }

  lemma SquareSize(y: real)
    ensures |UnitSquare(y)| == 4
  {
  }

  // ----- one step of the lists above -----

  lemma RangeStep(lo: int, hi: int)
    ensures Range(lo, hi) == if hi < lo then [] else [lo] + Range(lo + 1, hi)
  {
  }

  lemma ColumnsFrom(m: GridMap, ys: seq<real>, k: int)
    requires m.Valid() && 0 <= k <= |ys|
    ensures Columns(m, ys[k..]) ==
            if k + 1 < |ys| then Range(FromColumn(m, ys[k]), ToColumn(m, ys[k + 1])) + Columns(m, ys[k + 2..]) else []
  {
    hide FromColumn, ToColumn, Range;
    if k + 1 < |ys| { assert ys[k..][2..] == ys[k + 2..]; }
  }

  lemma ShortLine(m: GridMap, ys: seq<real>)
    requires m.Valid() && |ys| < 2
    ensures Columns(m, ys) == []
  {
  }

  /** The given columns of a line, and all later lines. */
  function FromLine(m: GridMap, lines: seq<seq<real>>, first: int, line: int, cs: seq<int>): seq<Cell>
    requires m.Valid() && 0 <= line
  {
    CellsOf(first + line, cs) + Cells(m, lines, first, line + 1)
  }

  lemma LineDone(m: GridMap, lines: seq<seq<real>>, first: int, line: int)
    requires m.Valid() && 0 <= line
    ensures FromLine(m, lines, first, line, []) == Cells(m, lines, first, line + 1)
  {
    hide Cells;
  }

  lemma NextLine(m: GridMap, lines: seq<seq<real>>, first: int, l: int)
    requires m.Valid() && 0 <= l
    ensures Cells(m, lines, first, l) ==
            if l < |lines| then FromLine(m, lines, first, l, Columns(m, lines[l])) else []
    ensures l < |lines| && |lines[l]| < 2 ==> Cells(m, lines, first, l) == Cells(m, lines, first, l + 1)
  {
    if l < |lines| && |lines[l]| < 2 {
      ShortLine(m, lines[l]);
      LineDone(m, lines, first, l);
    }
    hide Columns;
  }

  lemma TooFewVertices(m: GridMap, polygon: seq<Point>)
    requires m.Valid() && |polygon| < 3
    ensures Scan(m, polygon) == []
  {
  }

  lemma EdgeCellsAre(m: GridMap, edges: seq<Edge>)
    requires m.Valid() && AllOrdered(edges) && edges != []
    ensures FromRow(m, edges) <= ToRow(m, edges)
    ensures EdgeCells(m, edges) ==
            Cells(m, LinesOf(m, edges, FromRow(m, edges), ToRow(m, edges)), FromRow(m, edges), 0)
  {
    hide Cells, LinesOf, FromRow, ToRow;
    RowsInOrder(m, edges);
  }

  lemma ScanOfEdges(m: GridMap, polygon: seq<Point>, edges: seq<Edge>)
    requires m.Valid() && |polygon| >= 3 && edges == SortEdges(EdgesOf(Close(polygon)))
    ensures AllOrdered(edges) && Scan(m, polygon) == EdgeCells(m, edges)
  {
    hide SortEdges, EdgesOf, EdgeCells, AllOrdered;
    EdgesSorted(EdgesOf(Close(polygon)));
    OrderedPermutation(EdgesOf(Close(polygon)), edges);
  }

  // ----- the cursor -----

  class PolygonIterator {
    var grid: GridMap
    var rowOfFirstLine: int
    var lines: seq<seq<real>>
    var iter: int
    var currentIndex: (int, int)
    var currentLine: int
    var currentCol: int
    var currentToCol: int

    /** The state between steps. */
    ghost predicate Valid()
      reads this
    {
      0 <= currentLine && (!IsPastEnd() ==>
        && OnPair() && currentCol <= currentToCol
        && currentIndex == Stored(grid, Cell(rowOfFirstLine + currentLine, currentCol)))
    }

    ghost predicate OnPair()
      reads this
    {
      grid.Valid() && 0 <= currentLine < |lines| && 0 <= iter < |lines[currentLine]|
    }

    predicate IsPastEnd()
      reads this
    {
      currentLine >= |lines|
    }

    /** The cells still to be visited, the current one first. */
    ghost function Remaining(): seq<Cell>
      reads this
      requires Valid()
    {
      if IsPastEnd() then []
      else FromLine(grid, lines, rowOfFirstLine, currentLine,
                    Range(currentCol, currentToCol) + Columns(grid, lines[currentLine][iter + 1..]))
    }

    /** What follows the current column, whether or not it is inside its span. */
    ghost function Following(): seq<Cell>
      reads this
      requires OnPair()
    {
      FromLine(grid, lines, rowOfFirstLine, currentLine,
               Range(currentCol + 1, currentToCol) + Columns(grid, lines[currentLine][iter + 1..]))
    }

    /** The lines to scan, the row of the first and the initial line counter. An early return leaves
        no lines, which is past the end whatever the unsigned counter is. */
    static method FindLines(m: GridMap, polygon: seq<Point>)
        returns (found: seq<seq<real>>, first: int, line: int)
      requires m.Valid()
      ensures found == [] ==> Scan(m, polygon) == [] && 0 <= line
      ensures found != [] ==> Scan(m, polygon) == Cells(m, found, first, 0) && line == -1
    {
      hide *;
      found, first := [], 0;
      line :| 0 <= line;
      if |polygon| < 3 { TooFewVertices(m, polygon); return; }
      var edges := CalculateSortedEdges(Close(polygon));
      ScanOfEdges(m, polygon, edges);
      if edges == [] { NoCells(m); return; }
      EdgeCellsAre(m, edges);
      var fromRow, toRow := CalculateRowRange(m, edges);
      RangeOfRows(m, edges);
      found := CalculateIntersectionsPerLine(m, edges, fromRow, toRow);
      SameLines(m, edges, fromRow, toRow, found);
      first, line := fromRow, -1;
    }

    constructor (m: GridMap, polygon: seq<Point>)
      requires m.Valid()
      ensures Valid() && grid == m && Remaining() == Scan(m, polygon)
    {
      hide Cells, Columns, Range, FromLine, Scan, Stored, GridMap.Valid;
      var found, first, line := FindLines(m, polygon);
      grid, lines, rowOfFirstLine := m, found, first;
      currentLine, currentCol, currentToCol := line, 0, -1;
      new;
      if lines != [] {
        GoToNextLine();
        if !IsPastEnd() {
          CalculateColumnIndexes();
          if !IsPastEnd() { CalculateIndex(); }
        }
      }
    }

    /** Lines without a pair of intersections have no cells. */
    method GoToNextLine()
      requires grid.Valid() && -1 <= currentLine < |lines|
      modifies `currentLine, `iter
      ensures old(currentLine) < currentLine <= |lines|
      ensures IsPastEnd() ==> Cells(grid, lines, rowOfFirstLine, old(currentLine) + 1) == []
      ensures !IsPastEnd() ==>
        OnPair() && iter == 0 && |lines[currentLine]| >= 2 &&
        Cells(grid, lines, rowOfFirstLine, old(currentLine) + 1) ==
        FromLine(grid, lines, rowOfFirstLine, currentLine, Columns(grid, lines[currentLine]))
    {
      hide Cells, Columns, FromLine, GridMap.Valid;
      currentLine := currentLine + 1;
      while currentLine < |lines| && |lines[currentLine]| < 2
        invariant old(currentLine) < currentLine <= |lines|
        invariant Cells(grid, lines, rowOfFirstLine, old(currentLine) + 1) ==
                  Cells(grid, lines, rowOfFirstLine, currentLine)
      {
        NextLine(grid, lines, rowOfFirstLine, currentLine);
        currentLine := currentLine + 1;
      }
      NextLine(grid, lines, rowOfFirstLine, currentLine);
      if !IsPastEnd() { iter := 0; }
    }

    method CalculateIndex()
      requires grid.Valid()
      modifies `currentIndex
      ensures currentIndex == Stored(grid, Cell(rowOfFirstLine + currentLine, currentCol))
    {
      var row := grid.startRow + (rowOfFirstLine + currentLine);
      var col := grid.startCol + currentCol;
      currentIndex := (row % grid.rows, col % grid.cols);
    }

    /** Moves to the first column of the pair at the cursor, or past it when it holds no centre. */
    method CalculateColumnIndexes()
      requires OnPair() && iter + 1 < |lines[currentLine]|
      modifies `iter, `currentIndex, `currentLine, `currentCol, `currentToCol
      ensures 0 <= currentLine && (!IsPastEnd() ==> OnPair() && currentCol <= currentToCol)
      ensures old(FromLine(grid, lines, rowOfFirstLine, currentLine, Columns(grid, lines[currentLine][iter..]))) ==
        if IsPastEnd() then []
        else FromLine(grid, lines, rowOfFirstLine, currentLine,
                    Range(currentCol, currentToCol) + Columns(grid, lines[currentLine][iter + 1..]))
      decreases |lines| - currentLine, |lines[currentLine]| - iter, 2
    {
      hide Cells, Columns, FromLine, Range, FromColumn, ToColumn, Stored, GridMap.Valid;
      ColumnsFrom(grid, lines[currentLine], iter);
      currentCol := FromColumn(grid, lines[currentLine][iter]);
      iter := iter + 1;
      currentToCol := ToColumn(grid, lines[currentLine][iter]);
      if currentToCol < currentCol {
        RangeStep(currentCol, currentToCol);
        RangeStep(currentCol + 1, currentToCol);
        Increment();
      }
    }

    /** The body of the increment operator. */
    method Increment()
      requires OnPair()
      modifies `iter, `currentIndex, `currentLine, `currentCol, `currentToCol
      ensures Valid()
      ensures Remaining() == old(Following())
      decreases |lines| - currentLine, |lines[currentLine]| - iter, 1
    {
      hide Cells, Columns, FromLine, Range, FromColumn, ToColumn, Stored, GridMap.Valid;
      currentCol := currentCol + 1;
      if currentCol > currentToCol {
        RangeStep(currentCol, currentToCol);
        assert [] + Columns(grid, lines[currentLine][iter + 1..]) == Columns(grid, lines[currentLine][iter + 1..]);
        NextPair();
      }
      if !IsPastEnd() { CalculateIndex(); }
    }

    /** Past the columns of the pair at the cursor. */
    method NextPair()
      requires OnPair()
      modifies `iter, `currentIndex, `currentLine, `currentCol, `currentToCol
      ensures 0 <= currentLine && (!IsPastEnd() ==> OnPair() && currentCol <= currentToCol)
      ensures old(FromLine(grid, lines, rowOfFirstLine, currentLine, Columns(grid, lines[currentLine][iter + 1..]))) ==
        if IsPastEnd() then []
        else FromLine(grid, lines, rowOfFirstLine, currentLine,
                    Range(currentCol, currentToCol) + Columns(grid, lines[currentLine][iter + 1..]))
      decreases |lines| - currentLine, |lines[currentLine]| - iter, 0
    {
      hide Cells, Columns, FromLine, Range, FromColumn, ToColumn, Stored, GridMap.Valid;
      iter := iter + 1;
      ColumnsFrom(grid, lines[currentLine], iter);
      if iter == |lines[currentLine]| || iter + 1 == |lines[currentLine]| {
        LineDone(grid, lines, rowOfFirstLine, currentLine);
        GoToNextLine();
        if !IsPastEnd() { assert lines[currentLine][0..] == lines[currentLine]; }
      }
      if !IsPastEnd() { CalculateColumnIndexes(); }
    }

    lemma CurrentIsFirst()
      requires Valid() && !IsPastEnd()
      ensures |Remaining()| > 0 && Remaining()[0] == Cell(rowOfFirstLine + currentLine, currentCol)
    {
      hide Cells, Columns, Stored, GridMap.Valid;
      RangeStep(currentCol, currentToCol);
    }

    lemma PastEndIsEmpty()
      requires Valid() && IsPastEnd()
      ensures Remaining() == []
    {
    }

    method Current() returns (index: (int, int))
      requires Valid() && !IsPastEnd()
      ensures |Remaining()| > 0 && index == Stored(grid, Remaining()[0])
      ensures Remaining()[0].Inside(grid) ==> StoredAt(grid, Remaining()[0], index)
    {
      hide Cells, Columns, Range, Stored, StoredAt, GridMap.Valid;
      CurrentIsFirst();
      if Remaining()[0].Inside(grid) { StoredIsIndex(grid, Remaining()[0], currentIndex); }
      index := currentIndex;
    }

    /** Visits the next cell. */
    method Next()
      requires Valid() && !IsPastEnd()
      modifies `iter, `currentIndex, `currentLine, `currentCol, `currentToCol
      ensures Valid() && |old(Remaining())| > 0 && Remaining() == old(Remaining())[1..]
    {
      hide Cells, Columns, Range, Stored, GridMap.Valid;
      CurrentIsFirst();
      RangeStep(currentCol, currentToCol);
      Increment();
    }
  }

  function AllStored(m: GridMap, cells: seq<Cell>): (r: seq<(int, int)>)
    requires m.Valid()
  {
    seq(|cells|, i requires 0 <= i < |cells| => Stored(m, cells[i]))
  }

  lemma NothingStored(m: GridMap)
    requires m.Valid()
    ensures AllStored(m, []) == []
  {
  }

  lemma StoredFirst(m: GridMap, cells: seq<Cell>)
    requires m.Valid()
    ensures cells != [] ==> AllStored(m, cells) == [Stored(m, cells[0])] + AllStored(m, cells[1..])
  {
    hide Stored, GridMap.Valid;
  }

  /** A whole iteration, as callers write it. */
  method Iterate(m: GridMap, polygon: seq<Point>) returns (indices: seq<(int, int)>)
    requires m.Valid()
    ensures indices == AllStored(m, Scan(m, polygon)) && |indices| == |Scan(m, polygon)|
    ensures forall i :: 0 <= i < |indices| ==> StoredAt(m, Scan(m, polygon)[i], indices[i])
  {
    hide StoredAt;
    hide Scan, Columns, Cells, Range, Stored, AllStored, FromLine, PolygonIterator.Remaining, PolygonIterator.OnPair;
    hide GridMap.Valid;
    NothingStored(m);
    var it := new PolygonIterator(m, polygon);
    indices := [];
    while !it.IsPastEnd()
      invariant it.Valid() && it.grid == m
      invariant fresh(it) && indices + AllStored(m, it.Remaining()) == AllStored(m, Scan(m, polygon))
      decreases |it.Remaining()|
    {
      StoredFirst(m, it.Remaining());
      var index := it.Current();
      indices := indices + [index];
      it.Next();
    }
    it.PastEndIsEmpty();
    assert indices + [] == indices;
    AllStoredAt(m, polygon);
  }

  lemma AllStoredAt(m: GridMap, polygon: seq<Point>)
    requires m.Valid()
    ensures var cells := Scan(m, polygon);
            |AllStored(m, cells)| == |cells| &&
            forall i :: 0 <= i < |cells| ==> StoredAt(m, cells[i], AllStored(m, cells)[i])
  {
    hide Scan, Stored, StoredAt;
    var cells := Scan(m, polygon);
    ScanIsRowMajor(m, polygon);
    forall i | 0 <= i < |cells| ensures StoredAt(m, cells[i], AllStored(m, cells)[i]) {
      assert cells[i] in cells;
      StoredIsIndex(m, cells[i], Stored(m, cells[i]));
    }
  }
}
