/** Edges of a polygon and where a scan line meets them.

    A line is the set of points with one value of x; the polygon is a list of vertices whose
    first vertex is repeated at the end. */
module PolygonEdges {
  import opened Permutations

  datatype Point = Point(x: real, y: real)

  /** Where the segment from a to b crosses the line. */
  function CrossingY(a: Point, b: Point, x: real): real
    requires a.x != b.x
  {
    a.y + (x - a.x) * (b.y - a.y) / (b.x - a.x)
  }

  /** Two vertices, the one with the higher x first. */
  datatype Edge = Edge(first: Point, second: Point) {
    predicate Ordered() { first.x > second.x }

    predicate Meets(x: real) { second.x <= x <= first.x }

    function Y(x: real): real
      requires Ordered()
    {
      if second.x == x then second.y else CrossingY(second, first, x)
    }

    /** The sorting order of edges: higher first vertex first. */
    predicate Before(e: Edge) {
      first.x > e.first.x || (first.x == e.first.x && second.x > e.second.x)
    }
  }

  predicate AllOrdered(es: seq<Edge>) {
    forall i :: 0 <= i < |es| ==> es[i].Ordered()
  }

  predicate Sorted(es: seq<Edge>) {
    forall i, j :: 0 <= i < j < |es| ==> es[i].first.x >= es[j].first.x
  }

  predicate Decreasing(ys: seq<real>) {
    forall i, j :: 0 <= i < j < |ys| ==> ys[i] >= ys[j]
  }

  // ----- sorting -----

  function InsertEdge(e: Edge, es: seq<Edge>): seq<Edge> {
    if es == [] then [e]
    else if es[0].Before(e) then [es[0]] + InsertEdge(e, es[1..])
    else [e] + es
  }

  function SortEdges(es: seq<Edge>): seq<Edge> {
    if es == [] then [] else InsertEdge(es[0], SortEdges(es[1..]))
  }

  lemma {:induction false} EdgeInserted(e: Edge, es: seq<Edge>)
    ensures multiset(InsertEdge(e, es)) == multiset{e} + multiset(es)
  {
    if es != [] {
      assert es == [es[0]] + es[1..];
      EdgeInserted(e, es[1..]);
    }
  }

  lemma {:induction false} InsertedBelow(e: Edge, es: seq<Edge>, x: real)
    requires e.first.x <= x && forall i :: 0 <= i < |es| ==> es[i].first.x <= x
    ensures forall i :: 0 <= i < |InsertEdge(e, es)| ==> InsertEdge(e, es)[i].first.x <= x
  {
    if es != [] { InsertedBelow(e, es[1..], x); }
  }

  lemma {:induction false} InsertKeepsSorted(e: Edge, es: seq<Edge>)
    requires Sorted(es)
    ensures Sorted(InsertEdge(e, es))
  {
    if es != [] {
      if es[0].Before(e) { InsertedBelow(e, es[1..], es[0].first.x); }
      InsertKeepsSorted(e, es[1..]);
    }
  }

  lemma {:induction false} EdgesSorted(es: seq<Edge>)
    ensures multiset(SortEdges(es)) == multiset(es) && Sorted(SortEdges(es))
  {
    if es != [] {
      hide InsertEdge, Sorted;
      assert es == [es[0]] + es[1..];
      EdgesSorted(es[1..]);
      EdgeInserted(es[0], SortEdges(es[1..]));
      InsertKeepsSorted(es[0], SortEdges(es[1..]));
    }
  }

  function InsertY(y: real, ys: seq<real>): seq<real> {
    if ys == [] then [y]
    else if ys[0] > y then [ys[0]] + InsertY(y, ys[1..])
    else [y] + ys
  }

  function SortDown(ys: seq<real>): seq<real> {
    if ys == [] then [] else InsertY(ys[0], SortDown(ys[1..]))
  }

  lemma {:induction false} YInserted(y: real, ys: seq<real>)
    ensures multiset(InsertY(y, ys)) == multiset{y} + multiset(ys)
  {
    if ys != [] {
      assert ys == [ys[0]] + ys[1..];
      YInserted(y, ys[1..]);
    }
  }

  lemma {:induction false} YInsertedBelow(y: real, ys: seq<real>, h: real)
    requires y <= h && forall i :: 0 <= i < |ys| ==> ys[i] <= h
    ensures forall i :: 0 <= i < |InsertY(y, ys)| ==> InsertY(y, ys)[i] <= h
  {
    if ys != [] { YInsertedBelow(y, ys[1..], h); }
  }

  lemma {:induction false} InsertKeepsDecreasing(y: real, ys: seq<real>)
    requires Decreasing(ys)
    ensures Decreasing(InsertY(y, ys))
  {
    if ys != [] {
      if ys[0] > y { YInsertedBelow(y, ys[1..], ys[0]); }
      InsertKeepsDecreasing(y, ys[1..]);
    }
  }

  lemma {:induction false} SortedDown(ys: seq<real>)
    ensures multiset(SortDown(ys)) == multiset(ys) && Decreasing(SortDown(ys))
    ensures |SortDown(ys)| == |ys|
  {
    if ys != [] {
      hide InsertY, Decreasing;
      assert ys == [ys[0]] + ys[1..];
      SortedDown(ys[1..]);
      YInserted(ys[0], SortDown(ys[1..]));
      InsertKeepsDecreasing(ys[0], SortDown(ys[1..]));
    }
    assert |SortDown(ys)| == |multiset(SortDown(ys))|;
  }

  // ----- edges of a vertex list -----

  /** The edge between two vertices; none when it is horizontal in the index frame. */
  function EdgeBetween(a: Point, b: Point): (es: seq<Edge>)
    ensures AllOrdered(es)
  {
    if a.x > b.x then [Edge(a, b)] else if a.x < b.x then [Edge(b, a)] else []
  }

  function EdgesOf(vs: seq<Point>): (es: seq<Edge>)
    ensures AllOrdered(es)
  {
    if |vs| < 2 then [] else EdgeBetween(vs[0], vs[1]) + EdgesOf(vs[1..])
  }

  lemma OrderedPermutation(a: seq<Edge>, b: seq<Edge>)
    requires multiset(a) == multiset(b) && AllOrdered(a)
    ensures AllOrdered(b)
  {
    forall i | 0 <= i < |b| ensures b[i].Ordered() {
      assert b[i] in multiset(b);
      assert b[i] in multiset(a);
    }
  }

  lemma EdgesOfRest(vs: seq<Point>, i: nat)
    requires i + 1 < |vs|
    ensures EdgesOf(vs[i..]) == EdgeBetween(vs[i], vs[i + 1]) + EdgesOf(vs[i + 1..])
  {
    hide EdgeBetween;
    assert vs[i..][1..] == vs[i + 1..];
  }

  lemma LastVertex(vs: seq<Point>)
    requires |vs| == 1
    ensures EdgesOf(vs) == []
  {
  }

  method CalculateSortedEdges(vs: seq<Point>) returns (edges: seq<Edge>)
    requires |vs| >= 1
    ensures edges == SortEdges(EdgesOf(vs))
    ensures multiset(edges) == multiset(EdgesOf(vs)) && Sorted(edges) && AllOrdered(edges)
  {
    hide SortEdges, Sorted, AllOrdered, EdgesOf;
    edges := [];
    var i := 0;
    while i + 1 < |vs|
      invariant 0 <= i < |vs|
      invariant vs[0..] == vs && edges + EdgesOf(vs[i..]) == EdgesOf(vs)
    {
      EdgesOfRest(vs, i);
      if vs[i].x > vs[i + 1].x {
        edges := edges + [Edge(vs[i], vs[i + 1])];
      } else if vs[i].x < vs[i + 1].x {
        edges := edges + [Edge(vs[i + 1], vs[i])];
      }
      i := i + 1;
    }
    LastVertex(vs[i..]);
    assert edges + [] == edges;
    edges := SortEdges(edges);
    EdgesSorted(EdgesOf(vs));
    OrderedPermutation(EdgesOf(vs), edges);
  }

  // ----- intersections of a line -----

  function Hit(e: Edge, x: real): seq<real>
    requires e.Ordered()
  {
    if e.Meets(x) then [e.Y(x)] else []
  }

  /** All intersections of the edges with the line. */
  function Hits(es: seq<Edge>, x: real): seq<real>
    requires AllOrdered(es)
  {
    if es == [] then [] else Hit(es[0], x) + Hits(es[1..], x)
  }

  lemma {:induction false} HitsBelow(es: seq<Edge>, x: real)
    requires AllOrdered(es) && forall i :: 0 <= i < |es| ==> es[i].first.x < x
    ensures Hits(es, x) == []
  {
    if es != [] { HitsBelow(es[1..], x); }
  }

  lemma {:induction false} HitsAbove(es: seq<Edge>, x: real)
    requires AllOrdered(es) && forall i :: 0 <= i < |es| ==> es[i].second.x > x
    ensures Hits(es, x) == []
  {
    if es != [] { HitsAbove(es[1..], x); }
  }

  lemma HitsOfRest(es: seq<Edge>, i: nat, x: real)
    requires AllOrdered(es) && i < |es|
    ensures es[i].Ordered() && Hits(es[i..], x) == Hit(es[i], x) + Hits(es[i + 1..], x)
  {
    hide Hit;
    assert es[i..][1..] == es[i + 1..];
  }

  /** The early exit loses no intersection. */
  method LineIntersections(edges: seq<Edge>, x: real) returns (ys: seq<real>)
    requires AllOrdered(edges) && Sorted(edges)
    ensures ys == Hits(edges, x)
  {
    hide Hits, CrossingY;
    ys := [];
    var i := 0;
    while i < |edges|
      invariant 0 <= i <= |edges|
      invariant edges[0..] == edges && ys + Hits(edges[i..], x) == Hits(edges, x)
    {
      var e := edges[i];
      HitsOfRest(edges, i, x);
      if e.second.x == x {
        ys := ys + [e.second.y];
      } else if e.first.x >= x && e.second.x < x {
        ys := ys + [CrossingY(e.second, e.first, x)];
      } else if e.first.x < x {
        HitsBelow(edges[i..], x);
        break;
      }
      i := i + 1;
    }
    NoHits(x);
  }

  lemma NoHits(x: real)
    ensures Hits([], x) == []
  {
  }

  // ----- counting -----

  function CountAbove(ys: seq<real>, y: real): nat {
    if ys == [] then 0 else (if ys[0] > y then 1 else 0) + CountAbove(ys[1..], y)
  }

  lemma {:induction false} CountConcat(a: seq<real>, b: seq<real>, y: real)
    ensures CountAbove(a + b, y) == CountAbove(a, y) + CountAbove(b, y)
  {
    if a == [] {
      assert a + b == b;
    } else {
      assert (a + b)[1..] == a[1..] + b;
      CountConcat(a[1..], b, y);
    }
  }

  lemma {:induction false} CountPermutation(a: seq<real>, b: seq<real>, y: real)
    requires multiset(a) == multiset(b)
    ensures CountAbove(a, y) == CountAbove(b, y)
  {
    if a == [] {
      assert |b| == |multiset(b)| == 0;
    } else {
      var j := TakenOut(a, b);
      CountPermutation(a[1..], b[..j] + b[j + 1..], y);
      CountConcat(b[..j], b[j + 1..], y);
      CountConcat(b[..j], [b[j]] + b[j + 1..], y);
    }
  }

  /** In decreasing order the values above y come first. */
  lemma {:induction false} CountOfDecreasing(ys: seq<real>, y: real, i: nat)
    requires Decreasing(ys) && i < |ys|
    ensures ys[i] > y <==> i < CountAbove(ys, y)
    ensures CountAbove(ys, y) <= |ys|
  {
    NoneAbove(ys, y);
    if i > 0 {
      CountOfDecreasing(ys[1..], y, i - 1);
      if ys[0] <= y { assert ys[i] <= y; }
    }
  }

  lemma {:induction false} NoneAbove(ys: seq<real>, y: real)
    ensures CountAbove(ys, y) <= |ys|
    ensures (forall i :: 0 <= i < |ys| ==> ys[i] <= y) ==> CountAbove(ys, y) == 0
  {
    if ys != [] { NoneAbove(ys[1..], y); }
  }

  // ----- the crossing number of a point -----

  predicate Odd(n: int) { n % 2 == 1 }

  /** No vertex lies on the line. */
  predicate Clear(vs: seq<Point>, x: real) {
    forall i :: 0 <= i < |vs| ==> vs[i].x != x
  }

  predicate Straddles(a: Point, b: Point, x: real) {
    (a.x < x) != (b.x < x)
  }

  /** How many sides of the polygon a ray from (x, y) towards higher y crosses, a side having its
      upper end only. */
  function Crossings(vs: seq<Point>, x: real, y: real): nat
  {
    if |vs| < 2 then 0
    else
      (if Straddles(vs[0], vs[1], x) && vs[0].x != vs[1].x && CrossingY(vs[0], vs[1], x) > y then 1 else 0) +
      Crossings(vs[1..], x, y)
  }

  /** Some side of the polygon passes through (x, y). */
  predicate OnSide(vs: seq<Point>, x: real, y: real) {
    exists i :: 0 <= i < |vs| - 1 && SideThrough(vs[i], vs[i + 1], x, y)
  }

  predicate SideThrough(a: Point, b: Point, x: real, y: real) {
    Straddles(a, b, x) && a.x != b.x && CrossingY(a, b, x) == y
  }

  function LowerEnd(a: Point, b: Point): Point { if a.x < b.x then a else b }

  /** A side that is not horizontal ends on the line from above. */
  predicate EndsOn(a: Point, b: Point, x: real) {
    a.x != b.x && LowerEnd(a, b).x == x
  }

  /** How many sides end on the line from above. */
  function LowerEnds(vs: seq<Point>, x: real): nat {
    if |vs| < 2 then 0 else (if EndsOn(vs[0], vs[1], x) then 1 else 0) + LowerEnds(vs[1..], x)
  }

  /** How many of them end above y. */
  function EndsAbove(vs: seq<Point>, x: real, y: real): nat {
    if |vs| < 2 then 0
    else (if EndsOn(vs[0], vs[1], x) && LowerEnd(vs[0], vs[1]).y > y then 1 else 0) + EndsAbove(vs[1..], x, y)
  }

  /** Some side ends in (x, y) from above. */
  predicate EndAt(vs: seq<Point>, x: real, y: real) {
    exists i :: 0 <= i < |vs| - 1 && SideEndsAt(vs[i], vs[i + 1], x, y)
  }

  predicate SideEndsAt(a: Point, b: Point, x: real, y: real) {
    EndsOn(a, b, x) && LowerEnd(a, b).y == y
  }

  lemma {:induction false} NoEnds(vs: seq<Point>, x: real, y: real)
    requires Clear(vs, x)
    ensures LowerEnds(vs, x) == EndsAbove(vs, x, y) == 0 && !EndAt(vs, x, y)
  {
    if |vs| >= 2 { NoEnds(vs[1..], x, y); }
  }

  /** The line through a and b does not depend on which end it is computed from. */
  lemma SameLine(a: Point, b: Point, x: real)
    requires a.x != b.x
    ensures CrossingY(a, b, x) == CrossingY(b, a, x)
  {
    var d, h, q := b.x - a.x, b.y - a.y, (b.y - a.y) / (b.x - a.x);
    Scaled(x - a.x, h, d, q);
    Scaled(x - b.x, -h, -d, q);
    assert (x - a.x) * q - (x - b.x) * q == d * q;
  }

  lemma Scaled(t: real, h: real, d: real, q: real)
    requires d != 0.0 && q * d == h
    ensures t * h / d == t * q
  {
    assert (t * q) * d == t * h;
    DividedBack(t * h, d, t * q);
  }

  lemma DividedBack(x: real, d: real, q: real)
    requires d != 0.0 && q * d == x
    ensures x / d == q
  {
  }

  /** Where a side meets the line. */
  function SideHits(a: Point, b: Point, x: real): seq<real> {
    if Straddles(a, b, x) && a.x != b.x then [CrossingY(a, b, x)]
    else if EndsOn(a, b, x) then [LowerEnd(a, b).y]
    else []
  }

  lemma SideIsEdge(a: Point, b: Point, x: real)
    ensures var es := EdgeBetween(a, b);
            SideHits(a, b, x) == if es == [] then [] else Hit(es[0], x)
  {
    if a.x != b.x { SameLine(a, b, x); }
  }

  lemma HitsOfSide(a: Point, b: Point, rest: seq<Edge>, x: real)
    requires AllOrdered(rest)
    ensures Hits(EdgeBetween(a, b) + rest, x) == SideHits(a, b, x) + Hits(rest, x)
  {
    hide Hit, SideHits;
    SideIsEdge(a, b, x);
    var es := EdgeBetween(a, b);
    if es != [] {
      assert (es + rest)[1..] == rest;
    } else {
      assert es + rest == rest;
    }
  }

  lemma CountOfSide(a: Point, b: Point, x: real, y: real)
    ensures var h := SideHits(a, b, x);
            CountAbove(h, y) == (if Straddles(a, b, x) && a.x != b.x && CrossingY(a, b, x) > y then 1 else 0) +
                                (if EndsOn(a, b, x) && LowerEnd(a, b).y > y then 1 else 0) &&
            (y in h <==> SideThrough(a, b, x, y) || SideEndsAt(a, b, x, y)) &&
            |h| == (if Straddles(a, b, x) then 1 else 0) + (if EndsOn(a, b, x) then 1 else 0)
  {
    hide CrossingY;
  }

  /** What the edges find on any line: the sides that cross it, and those that end on it from above
      once more. The number is odd when exactly one of two things holds: the two ends of the chain are
      on different sides, or an odd number of sides end on the line. */
  lemma {:induction false} HitsAreCrossings(vs: seq<Point>, x: real, y: real)
    requires |vs| >= 1
    ensures CountAbove(Hits(EdgesOf(vs), x), y) == Crossings(vs, x, y) + EndsAbove(vs, x, y)
    ensures y in Hits(EdgesOf(vs), x) <==> OnSide(vs, x, y) || EndAt(vs, x, y)
    ensures Odd(|Hits(EdgesOf(vs), x)|) <==> Straddles(vs[0], vs[|vs| - 1], x) != Odd(LowerEnds(vs, x))
  {
    hide CrossingY, Hits, EdgeBetween, SideHits, EndsOn, LowerEnd, OnSide, EndAt, SideThrough, SideEndsAt;
    if |vs| == 1 {
      assert EdgesOf(vs) == [];
      NoHits(x);
      NothingThrough(vs, x, y);
    } else {
      var rest := vs[1..];
      HitsAreCrossings(rest, x, y);
      HitsOfSide(vs[0], vs[1], EdgesOf(rest), x);
      CountConcat(SideHits(vs[0], vs[1], x), Hits(EdgesOf(rest), x), y);
      CountOfSide(vs[0], vs[1], x, y);
      OnSideStep(vs, x, y);
      EndAtStep(vs, x, y);
    }
  }

  lemma NothingThrough(vs: seq<Point>, x: real, y: real)
    requires |vs| == 1
    ensures !OnSide(vs, x, y) && !EndAt(vs, x, y)
  {
  }

  lemma EndAtStep(vs: seq<Point>, x: real, y: real)
    requires |vs| >= 2
    ensures EndAt(vs, x, y) <==> SideEndsAt(vs[0], vs[1], x, y) || EndAt(vs[1..], x, y)
  {
    hide SideEndsAt;
    var rest := vs[1..];
    forall i | 0 <= i < |rest| - 1
      ensures SideEndsAt(rest[i], rest[i + 1], x, y) <==> SideEndsAt(vs[i + 1], vs[i + 2], x, y)
    {
    }
    if EndAt(vs, x, y) {
      var i :| 0 <= i < |vs| - 1 && SideEndsAt(vs[i], vs[i + 1], x, y);
      if i > 0 { assert SideEndsAt(rest[i - 1], rest[i], x, y); }
    }
    if EndAt(rest, x, y) {
      var i :| 0 <= i < |rest| - 1 && SideEndsAt(rest[i], rest[i + 1], x, y);
      assert SideEndsAt(vs[i + 1], vs[i + 1 + 1], x, y);
    }
  }

  lemma OnSideStep(vs: seq<Point>, x: real, y: real)
    requires |vs| >= 2
    ensures OnSide(vs, x, y) <==> SideThrough(vs[0], vs[1], x, y) || OnSide(vs[1..], x, y)
  {
    hide SideThrough;
    var rest := vs[1..];
    forall i | 0 <= i < |rest| - 1
      ensures SideThrough(rest[i], rest[i + 1], x, y) <==> SideThrough(vs[i + 1], vs[i + 2], x, y)
    {
    }
    if OnSide(vs, x, y) {
      var i :| 0 <= i < |vs| - 1 && SideThrough(vs[i], vs[i + 1], x, y);
      if i > 0 { assert SideThrough(rest[i - 1], rest[i], x, y); }
    }
    if OnSide(rest, x, y) {
      var i :| 0 <= i < |rest| - 1 && SideThrough(rest[i], rest[i + 1], x, y);
      assert SideThrough(vs[i + 1], vs[i + 1 + 1], x, y);
    }
  }

  /** What the sorted edges of a closed polygon give on any line: an odd number of intersections
      exactly when an odd number of sides end on it from above, so an even number when it touches no
      vertex. */
  lemma ClosedPolygonLine(vs: seq<Point>, edges: seq<Edge>, x: real, y: real)
    requires |vs| >= 1 && vs[0] == vs[|vs| - 1]
    requires multiset(edges) == multiset(EdgesOf(vs)) && AllOrdered(edges)
    ensures Odd(|Hits(edges, x)|) <==> Odd(LowerEnds(vs, x))
    ensures CountAbove(SortDown(Hits(edges, x)), y) == Crossings(vs, x, y) + EndsAbove(vs, x, y)
    ensures y in SortDown(Hits(edges, x)) <==> OnSide(vs, x, y) || EndAt(vs, x, y)
    ensures Clear(vs, x) ==> !Odd(|Hits(edges, x)|)
  {
    hide Hits, EdgesOf, Crossings, EndsAbove, LowerEnds, OnSide, EndAt, CountAbove, SortDown, Clear;
    var reference := Hits(EdgesOf(vs), x);
    HitsPermutation(edges, EdgesOf(vs), x);
    HitsAreCrossings(vs, x, y);
    var ys := SortDown(Hits(edges, x));
    SortedDown(Hits(edges, x));
    assert |Hits(edges, x)| == |multiset(Hits(edges, x))| == |multiset(reference)| == |reference|;
    CountPermutation(ys, reference, y);
    assert y in ys <==> y in multiset(ys);
    assert y in reference <==> y in multiset(reference);
    if Clear(vs, x) { NoEnds(vs, x, y); }
  }

  lemma {:induction false} HitsPermutation(a: seq<Edge>, b: seq<Edge>, x: real)
    requires multiset(a) == multiset(b) && AllOrdered(a) && AllOrdered(b)
    ensures multiset(Hits(a, x)) == multiset(Hits(b, x))
  {
    hide Hit;
    if a == [] {
      assert |b| == |multiset(b)| == 0;
    } else {
      var j := TakenOut(a, b);
      HitsPermutation(a[1..], b[..j] + b[j + 1..], x);
      HitsConcat(b[..j], b[j + 1..], x);
      HitsConcat(b[..j], [b[j]] + b[j + 1..], x);
      assert ([b[j]] + b[j + 1..])[1..] == b[j + 1..];
    }
  }

  lemma {:induction false} HitsConcat(a: seq<Edge>, b: seq<Edge>, x: real)
    requires AllOrdered(a) && AllOrdered(b)
    ensures Hits(a + b, x) == Hits(a, x) + Hits(b, x)
  {
    hide Hit;
    if a == [] {
      assert a + b == b;
    } else {
      assert (a + b)[1..] == a[1..] + b;
      HitsConcat(a[1..], b, x);
    }
  }

  lemma TopOfEdge(b: Point, c: Point)
    requires b.x != c.x
    ensures CrossingY(c, b, b.x) == b.y
  {
    SameLine(c, b, b.x);
  }

  /** A vertex between a higher and a lower neighbour is an intersection of both its edges, so the
      line through it meets a triangle three times. */
  lemma MiddleVertexCountsTwice(a: Point, b: Point, c: Point)
    requires a.x > b.x > c.x
    ensures Hit(Edge(a, b), b.x) == Hit(Edge(b, c), b.x) == [b.y]
    ensures |Hits([Edge(a, b), Edge(b, c), Edge(a, c)], b.x)| == 3
  {
    hide CrossingY;
    TopOfEdge(b, c);
    var t, u, v := [Edge(a, b), Edge(b, c), Edge(a, c)], [Edge(b, c), Edge(a, c)], [Edge(a, c)];
    assert t[1..] == u && u[1..] == v && v[1..] == [];
    assert |Hits(v, b.x)| == 1 && |Hits(u, b.x)| == 2;
  }
}
