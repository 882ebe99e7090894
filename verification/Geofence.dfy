/**
 The geofence test counts, by parity, the polygon's edges that a ray from the point crosses. Over the reals it does
 not depend on where the vertex list starts, on its direction or on extra vertices on an edge; a polygon answers as
 the parity of its fan of triangles; and a triangle's answer is right everywhere but on its border.
 */
module Geofence {

  datatype Vertex = Vertex(lat: real, lng: real)

  type Point = Vertex

  predicate Above(v: Vertex, p: Point) {
    v.lng > p.lng
  }

  /** The edge from j to i straddles the point's longitude, and meets it north of the point. */
  predicate Crosses(p: Point, i: Vertex, j: Vertex) {
    && Above(i, p) != Above(j, p)
    && p.lat < (j.lat - i.lat) * (p.lng - i.lng) / (j.lng - i.lng) + i.lat
  }

  /** Whether the edges along a path cross an odd number of times. */
  predicate OddAlong(p: Point, path: seq<Vertex>) {
    |path| >= 2 && (OddAlong(p, path[..|path| - 1]) != Crosses(p, path[|path| - 1], path[|path| - 2]))
  }

  /** The vertices from the last one around to itself. */
  function Around(polygon: seq<Vertex>): seq<Vertex> {
    if polygon == [] then [] else [polygon[|polygon| - 1]] + polygon
  }

  predicate Inside(p: Point, polygon: seq<Vertex>) {
    OddAlong(p, Around(polygon))
  }

  lemma AroundStarts(p: Point, polygon: seq<Vertex>)
    ensures |Around(polygon)| == if polygon == [] then 0 else |polygon| + 1
    ensures !OddAlong(p, Around(polygon)[..if polygon == [] then 0 else 1])
  {
  }

  lemma AroundStep(p: Point, polygon: seq<Vertex>, i: nat)
    requires i < |polygon|
    ensures OddAlong(p, Around(polygon)[..i + 2]) == (OddAlong(p, Around(polygon)[..i + 1])
      != Crosses(p, polygon[i], polygon[if i == 0 then |polygon| - 1 else i - 1]))
  {
    hide Crosses;
    assert Around(polygon)[..i + 2][..i + 1] == Around(polygon)[..i + 1];
  }

  method IsPointInPolygon(lat: real, lng: real, polygon: seq<Vertex>) returns (inside: bool)
    ensures inside == Inside(Vertex(lat, lng), polygon)
  {
    hide OddAlong, Around;
    ghost var p := Vertex(lat, lng);
    AroundStarts(p, polygon);
    inside := false;
    var i, j := 0, |polygon| - 1;
    while i < |polygon|
      invariant 0 <= i <= |polygon| && j == if i == 0 then |polygon| - 1 else i - 1
      invariant inside == OddAlong(p, Around(polygon)[..if polygon == [] then 0 else i + 1])
    {
      var xi, yi := polygon[i].lat, polygon[i].lng;
      var xj, yj := polygon[j].lat, polygon[j].lng;
      var intersect := (yi > lng) != (yj > lng) && lat < (xj - xi) * (lng - yi) / (yj - yi) + xi;
      AroundStep(p, polygon, i);
      assert intersect == Crosses(p, polygon[i], polygon[j]);
      if intersect {
        inside := !inside;
      }
      i, j := i + 1, i;
    }
    assert polygon != [] ==> Around(polygon)[..|polygon| + 1] == Around(polygon);
  }

  // ----- Edges -----

  /** Positive, negative or zero as the point lies on one side of the line from a to b, on the other, or on it. */
  function Orient(a: Vertex, b: Vertex, p: Point): real {
    (b.lat - a.lat) * (p.lng - a.lng) - (p.lat - a.lat) * (b.lng - a.lng)
  }

  lemma QuotientAbove(x: real, n: real, d: real)
    requires d != 0.0
    ensures x < n / d <==> if d > 0.0 then x * d < n else x * d > n
  {
    var q := n / d;
    assert q * d == n;
    if x < q {
      assert d > 0.0 ==> (q - x) * d > 0.0;
      assert d < 0.0 ==> (q - x) * d < 0.0;
    } else {
      assert d > 0.0 ==> (x - q) * d >= 0.0;
      assert d < 0.0 ==> (x - q) * d <= 0.0;
    }
  }

  /** The crossing test without the division. */
  lemma CrossesBySide(p: Point, i: Vertex, j: Vertex)
    ensures Crosses(p, i, j) <==>
      || (!Above(i, p) && Above(j, p) && Orient(i, j, p) > 0.0)
      || (Above(i, p) && !Above(j, p) && Orient(i, j, p) < 0.0)
  {
    if Above(i, p) != Above(j, p) {
      var x, n, d := p.lat - i.lat, (j.lat - i.lat) * (p.lng - i.lng), j.lng - i.lng;
      QuotientAbove(x, n, d);
      assert Crosses(p, i, j) <==> x < n / d;
      assert Orient(i, j, p) == n - x * d;
    }
  }

  lemma OrientFlips(a: Vertex, b: Vertex, p: Point)
    ensures Orient(b, a, p) == -Orient(a, b, p)
  {
  }

  lemma CrossesBothWays(p: Point, i: Vertex, j: Vertex)
    ensures Crosses(p, i, j) == Crosses(p, j, i)
  {
    hide Crosses, Orient;
    CrossesBySide(p, i, j);
    CrossesBySide(p, j, i);
    OrientFlips(i, j, p);
  }

  // ----- Paths -----

  lemma {:induction false} OddAlongSplits(p: Point, front: seq<Vertex>, v: Vertex, back: seq<Vertex>)
    ensures OddAlong(p, front + [v] + back) == (OddAlong(p, front + [v]) != OddAlong(p, [v] + back))
  {
    hide Crosses;
    if back == [] {
      assert front + [v] + back == front + [v];
    } else {
      var rest := back[..|back| - 1];
      OddAlongSplits(p, front, v, rest);
      assert (front + [v] + back)[..|front + [v] + back| - 1] == front + [v] + rest;
      assert ([v] + back)[..|[v] + back| - 1] == [v] + rest;
      assert (front + [v] + back)[|front| + |back| - 1] == ([v] + back)[|back| - 1];
    }
  }

  lemma TwoVertices(p: Point, a: Vertex, b: Vertex)
    ensures OddAlong(p, [a, b]) == Crosses(p, b, a)
  {
    assert [a, b][..1] == [a];
  }

  function Reversed(s: seq<Vertex>): (r: seq<Vertex>)
    ensures |r| == |s|
    ensures s != [] ==> r[0] == s[|s| - 1] && r[|s| - 1] == s[0]
  {
    if s == [] then [] else [s[|s| - 1]] + Reversed(s[..|s| - 1])
  }

  lemma {:induction false} OddAlongReversed(p: Point, path: seq<Vertex>)
    ensures OddAlong(p, Reversed(path)) == OddAlong(p, path)
  {
    hide Crosses;
    if |path| >= 2 {
      var front, last := path[..|path| - 1], path[|path| - 1];
      var back := Reversed(front);
      OddAlongReversed(p, front);
      assert Reversed(path) == [last] + [back[0]] + back[1..];
      assert [back[0]] + back[1..] == back;
      OddAlongSplits(p, [last], back[0], back[1..]);
      TwoVertices(p, last, back[0]);
      CrossesBothWays(p, last, back[0]);
      assert [last] + [back[0]] == [last, back[0]];
    }
  }

  // ----- The vertex list -----

  /** A polygon from its first vertex on, closed by the edge back to it. */
  lemma InsideFrom(p: Point, v: Vertex, rest: seq<Vertex>)
    ensures Inside(p, [v] + rest) == OddAlong(p, [v] + rest + [v])
  {
    hide Crosses;
    if rest == [] {
      assert Around([v] + rest) == [v] + rest + [v];
    } else {
      var last, front := rest[|rest| - 1], rest[..|rest| - 1];
      assert Around([v] + rest) == [last] + [v] + rest;
      OddAlongSplits(p, [last], v, rest);
      assert [v] + rest + [v] == [v] + front + [last] + [v];
      assert [v] + front + [last] == [v] + rest;
      OddAlongSplits(p, [v] + front, last, [v]);
      assert [last] + [v] == [last, v];
    }
  }

  lemma TurnByOne(p: Point, v: Vertex, rest: seq<Vertex>)
    ensures Inside(p, rest + [v]) == Inside(p, [v] + rest)
  {
    hide OddAlong;
    InsideFrom(p, v, rest);
    assert Around(rest + [v]) == [v] + rest + [v];
  }

  /** Starting the list at another vertex does not change the answer. */
  lemma {:induction false} RotationInvariant(p: Point, a: seq<Vertex>, b: seq<Vertex>)
    ensures Inside(p, a + b) == Inside(p, b + a)
  {
    hide Inside;
    if a == [] {
      assert a + b == b == b + a;
    } else {
      var v, rest := a[0], a[1..];
      assert a + b == [v] + (rest + b);
      TurnByOne(p, v, rest + b);
      RotationInvariant(p, rest, b + [v]);
      assert rest + (b + [v]) == rest + b + [v];
      assert b + [v] + rest == b + a;
    }
  }

  /** Nor does listing the vertices backwards. */
  lemma ReversalInvariant(p: Point, polygon: seq<Vertex>)
    ensures Inside(p, Reversed(polygon)) == Inside(p, polygon)
  {
    hide OddAlong, Inside;
    if polygon != [] {
      var front, last := polygon[..|polygon| - 1], polygon[|polygon| - 1];
      InsideFrom(p, last, Reversed(front));
      InsideFrom(p, last, front);
      TurnByOne(p, last, front);
      assert front + [last] == polygon && [last] + Reversed(front) == Reversed(polygon);
      OddAlongReversed(p, [last] + front + [last]);
      ReversedCycle(last, front);
    }
  }

  lemma ReversedCycle(v: Vertex, s: seq<Vertex>)
    ensures Reversed([v] + s + [v]) == [v] + Reversed(s) + [v]
  {
    ReversedPlus(s, v);
    assert ([v] + s + [v])[..|s| + 1] == [v] + s;
  }

  lemma {:induction false} ReversedPlus(s: seq<Vertex>, v: Vertex)
    ensures Reversed([v] + s) == Reversed(s) + [v]
  {
    if s == [] {
      assert [v] + s == [v];
    } else {
      assert ([v] + s)[..|s|] == [v] + s[..|s| - 1];
      ReversedPlus(s[..|s| - 1], v);
    }
  }

  function Between(a: Vertex, b: Vertex, t: real): Vertex {
    Vertex(a.lat + t * (b.lat - a.lat), a.lng + t * (b.lng - a.lng))
  }

  lemma OrientBetween(a: Vertex, b: Vertex, t: real, p: Point)
    ensures Orient(a, Between(a, b, t), p) == t * Orient(a, b, p)
    ensures Orient(Between(a, b, t), b, p) == (1.0 - t) * Orient(a, b, p)
  {
    var x, y, u, w := b.lat - a.lat, b.lng - a.lng, p.lat - a.lat, p.lng - a.lng;
    assert Orient(a, Between(a, b, t), p) == t * x * w - u * (t * y) == t * (x * w - u * y);
    var v := Between(a, b, t);
    assert b.lat - v.lat == x - t * x && b.lng - v.lng == y - t * y;
    assert p.lat - v.lat == u - t * x && p.lng - v.lng == w - t * y;
    assert (x - t * x) * (w - t * y) - (u - t * x) * (y - t * y) == (1.0 - t) * (x * w - u * y);
  }

  lemma AboveBetween(a: Vertex, b: Vertex, t: real, p: Point)
    requires 0.0 <= t <= 1.0 && Above(a, p) == Above(b, p)
    ensures Above(Between(a, b, t), p) == Above(a, p)
  {
    var x, y := a.lng - p.lng, b.lng - p.lng;
    assert Between(a, b, t).lng - p.lng == (1.0 - t) * x + t * y;
    SameSign(1.0 - t, x);
    SameSign(t, y);
    if x > 0.0 && t < 1.0 {
      assert (1.0 - t) * x > 0.0;
    }
  }

  lemma SameSign(t: real, x: real)
    requires t >= 0.0
    ensures x >= 0.0 ==> t * x >= 0.0
    ensures x <= 0.0 ==> t * x <= 0.0
    ensures t > 0.0 && x > 0.0 ==> t * x > 0.0
    ensures t > 0.0 && x < 0.0 ==> t * x < 0.0
  {
  }

  lemma Positive(t: real, x: real)
    requires t > 0.0
    ensures t * x > 0.0 <==> x > 0.0
    ensures t * x < 0.0 <==> x < 0.0
  {
  }

  lemma EndsBetween(a: Vertex, b: Vertex)
    ensures Between(a, b, 0.0) == a && Between(a, b, 1.0) == b
  {
  }

  lemma SidesBetween(p: Point, a: Vertex, b: Vertex, t: real)
    requires 0.0 <= t <= 1.0
    ensures var v := Between(a, b, t); var ab, av, vb := Orient(a, b, p), Orient(a, v, p), Orient(v, b, p);
      && (Above(v, p) != Above(a, p) ==> (av > 0.0 <==> ab > 0.0) && (av < 0.0 <==> ab < 0.0))
      && (Above(v, p) != Above(b, p) ==> (vb > 0.0 <==> ab > 0.0) && (vb < 0.0 <==> ab < 0.0))
      && (Above(a, p) == Above(b, p) ==> Above(v, p) == Above(a, p))
  {
    hide Orient, Between;
    OrientBetween(a, b, t, p);
    EndsBetween(a, b);
    if t > 0.0 {
      Positive(t, Orient(a, b, p));
    }
    if t < 1.0 {
      Positive(1.0 - t, Orient(a, b, p));
    }
    if Above(a, p) == Above(b, p) {
      AboveBetween(a, b, t, p);
    }
  }

  lemma CrossesBetween(p: Point, a: Vertex, b: Vertex, t: real)
    requires 0.0 <= t <= 1.0
    ensures Crosses(p, b, a) == (Crosses(p, Between(a, b, t), a) != Crosses(p, b, Between(a, b, t)))
  {
    hide Crosses, Orient, Between;
    var v := Between(a, b, t);
    CrossesBySide(p, b, a);
    CrossesBySide(p, v, a);
    CrossesBySide(p, b, v);
    OrientFlips(a, b, p);
    OrientFlips(a, v, p);
    OrientFlips(v, b, p);
    SidesBetween(p, a, b, t);
  }

  /** A vertex more, anywhere on the edge between a and b, does not change the answer. */
  lemma ExtraVertexInvariant(p: Point, a: Vertex, b: Vertex, rest: seq<Vertex>, t: real)
    requires 0.0 <= t <= 1.0
    ensures Inside(p, [a, Between(a, b, t), b] + rest) == Inside(p, [a, b] + rest)
  {
    hide Crosses, Between, OddAlong, Inside;
    var v := Between(a, b, t);
    assert [a, b] + rest == [a] + ([b] + rest) && [a, v, b] + rest == [a] + ([v, b] + rest);
    InsideFrom(p, a, [b] + rest);
    InsideFrom(p, a, [v, b] + rest);
    assert [a] + ([b] + rest) + [a] == [a] + [b] + (rest + [a]);
    assert [a] + ([v, b] + rest) + [a] == [a, v] + [b] + (rest + [a]);
    OddAlongSplits(p, [a], b, rest + [a]);
    OddAlongSplits(p, [a, v], b, rest + [a]);
    assert [a] + [b] == [a, b];
    assert [a, v] + [b] == [a] + [v] + [b];
    OddAlongSplits(p, [a], v, [b]);
    assert [a] + [v] == [a, v] && [v] + [b] == [v, b];
    TwoVertices(p, a, b);
    TwoVertices(p, a, v);
    TwoVertices(p, v, b);
    CrossesBetween(p, a, b, t);
  }

  // ----- Outside the bounding box -----

  /** The straddling edges of a path are odd in number exactly when its ends lie on different sides. */
  predicate OddStraddles(p: Point, path: seq<Vertex>) {
    |path| >= 2
    && (OddStraddles(p, path[..|path| - 1]) != (Above(path[|path| - 1], p) != Above(path[|path| - 2], p)))
  }

  lemma {:induction false} StraddlesByEnds(p: Point, path: seq<Vertex>)
    requires path != []
    ensures OddStraddles(p, path) == (Above(path[0], p) != Above(path[|path| - 1], p))
  {
    if |path| >= 2 {
      StraddlesByEnds(p, path[..|path| - 1]);
    }
  }

  lemma SideSum(p: Point, i: Vertex, j: Vertex)
    ensures Orient(i, j, p) == (i.lat - p.lat) * (j.lng - p.lng) + (j.lat - p.lat) * (p.lng - i.lng)
  {
  }

  lemma Sides(a: real, x: real, b: real, y: real)
    requires a >= 0.0 && b >= 0.0
    ensures x >= 0.0 && y >= 0.0 ==> a * x + b * y >= 0.0
    ensures x <= 0.0 && y <= 0.0 ==> a * x + b * y <= 0.0
    ensures a > 0.0 && x > 0.0 && y >= 0.0 ==> a * x + b * y > 0.0
    ensures b > 0.0 && x <= 0.0 && y < 0.0 ==> a * x + b * y < 0.0
  {
    SameSign(a, x);
    SameSign(b, y);
  }

  /** South of all vertices every straddling edge is crossed. */
  lemma SouthCrosses(p: Point, i: Vertex, j: Vertex)
    requires p.lat < i.lat && p.lat < j.lat
    ensures Crosses(p, i, j) == (Above(i, p) != Above(j, p))
  {
    CrossesBySide(p, i, j);
    SideSum(p, i, j);
    Sides(i.lat - p.lat, j.lng - p.lng, j.lat - p.lat, p.lng - i.lng);
  }

  /** North of all vertices none is. */
  lemma NorthCrosses(p: Point, i: Vertex, j: Vertex)
    requires p.lat >= i.lat && p.lat >= j.lat
    ensures !Crosses(p, i, j)
  {
    CrossesBySide(p, i, j);
    SideSum(p, i, j);
    Sides(p.lat - i.lat, j.lng - p.lng, p.lat - j.lat, p.lng - i.lng);
    assert (i.lat - p.lat) * (j.lng - p.lng) == -((p.lat - i.lat) * (j.lng - p.lng));
    assert (j.lat - p.lat) * (p.lng - i.lng) == -((p.lat - j.lat) * (p.lng - i.lng));
  }

  lemma {:induction false} SouthParity(p: Point, path: seq<Vertex>)
    requires forall v | v in path :: p.lat < v.lat
    ensures OddAlong(p, path) == OddStraddles(p, path)
  {
    hide Crosses;
    if |path| >= 2 {
      assert forall v | v in path[..|path| - 1] :: v in path;
      SouthParity(p, path[..|path| - 1]);
      SouthCrosses(p, path[|path| - 1], path[|path| - 2]);
    }
  }

  lemma {:induction false} NoneCrossed(p: Point, path: seq<Vertex>)
    requires forall i, j | i in path && j in path :: !Crosses(p, i, j)
    ensures !OddAlong(p, path)
  {
    hide Crosses;
    if |path| >= 2 {
      assert forall v | v in path[..|path| - 1] :: v in path;
      NoneCrossed(p, path[..|path| - 1]);
    }
  }

  /** A point not between the least and greatest latitude and longitude of the vertices is reported outside. */
  lemma OutsideTheBox(p: Point, polygon: seq<Vertex>)
    requires || (forall v | v in polygon :: p.lat < v.lat) || (forall v | v in polygon :: p.lat >= v.lat)
             || (forall v | v in polygon :: p.lng < v.lng) || (forall v | v in polygon :: p.lng >= v.lng)
    ensures !Inside(p, polygon)
  {
    hide Crosses, OddAlong, OddStraddles;
    var path := Around(polygon);
    assert forall v | v in path :: v in polygon;
    if polygon != [] && forall v | v in polygon :: p.lat < v.lat {
      SouthParity(p, path);
      StraddlesByEnds(p, path);
    } else {
      forall i, j | i in path && j in path
        ensures !Crosses(p, i, j)
      {
        CrossesBySide(p, i, j);
        if p.lat >= i.lat && p.lat >= j.lat {
          NorthCrosses(p, i, j);
        }
      }
      NoneCrossed(p, path);
    }
  }

  // ----- Triangles -----

  /** Cutting a polygon along a chord: the point is in one of the two pieces exactly when it is in the whole. */
  lemma {:induction false} CutAlongChord(p: Point, u: Vertex, s: seq<Vertex>, w: Vertex, t: seq<Vertex>)
    ensures Inside(p, [u] + s + [w] + t) == (Inside(p, [u] + s + [w]) != Inside(p, [w] + t + [u]))
  {
    hide Crosses, OddAlong, Inside;
    assert [u] + s + [w] + t == [u] + (s + [w] + t);
    InsideFrom(p, u, s + [w] + t);
    assert [u] + (s + [w] + t) + [u] == [u] + s + [w] + (t + [u]);
    OddAlongSplits(p, [u] + s, w, t + [u]);
    ClosedByChord(p, u, s, w);
    ClosedByChord(p, w, t, u);
    CrossesBothWays(p, u, w);
    assert [w] + t + [u] == [w] + (t + [u]);
  }

  lemma ClosedByChord(p: Point, u: Vertex, s: seq<Vertex>, w: Vertex)
    ensures Inside(p, [u] + s + [w]) == (OddAlong(p, [u] + s + [w]) != Crosses(p, u, w))
  {
    hide Crosses, OddAlong, Inside;
    assert [u] + s + [w] == [u] + (s + [w]);
    InsideFrom(p, u, s + [w]);
    assert [u] + (s + [w]) + [u] == [u] + s + [w] + [u];
    OddAlongSplits(p, [u] + s, w, [u]);
    assert [w] + [u] == [w, u];
    TwoVertices(p, w, u);
  }

  /** Whether the point is in an odd number of the triangles that the first vertex spans with the other edges. */
  predicate OddInFan(p: Point, polygon: seq<Vertex>) {
    |polygon| >= 3
    && (OddInFan(p, polygon[..|polygon| - 1])
        != Inside(p, [polygon[|polygon| - 2], polygon[|polygon| - 1], polygon[0]]))
  }

  lemma InsideTwo(p: Point, a: Vertex, b: Vertex)
    ensures !Inside(p, [a, b]) && !Inside(p, [a])
  {
    hide Crosses;
    assert [a, b] == [a] + [b] && [a] == [a] + [];
    InsideFrom(p, a, [b]);
    assert [a] + [b] + [a] == [a, b] + [a];
    assert [a, b, a][..2] == [a, b];
    TwoVertices(p, a, b);
    CrossesBothWays(p, a, b);
    TwoVertices(p, a, a);
    assert Around([a]) == [a, a];
    CrossesBySide(p, a, a);
  }

  /** A polygon's answer is the parity of its fan's answers. */
  lemma {:induction false} PolygonIsFan(p: Point, polygon: seq<Vertex>)
    ensures Inside(p, polygon) == OddInFan(p, polygon)
  {
    hide Inside;
    if |polygon| >= 3 {
      var u, front := polygon[0], polygon[..|polygon| - 1];
      PolygonIsFan(p, front);
      var s, w, last := front[1..|front| - 1], front[|front| - 1], polygon[|polygon| - 1];
      assert front == [u] + s + [w] && polygon == [u] + s + [w] + [last];
      CutAlongChord(p, u, s, w, [last]);
      assert [w] + [last] + [u] == [w, last, u];
    } else if |polygon| == 2 {
      InsideTwo(p, polygon[0], polygon[1]);
      assert polygon == [polygon[0], polygon[1]];
    } else if |polygon| == 1 {
      InsideTwo(p, polygon[0], polygon[0]);
      assert polygon == [polygon[0]];
    } else {
      InsideNone(p);
    }
  }

  lemma InsideNone(p: Point)
    ensures !Inside(p, [])
  {
  }

  lemma InsideTriangle(p: Point, a: Vertex, b: Vertex, c: Vertex)
    ensures Inside(p, [a, b, c]) == ((Crosses(p, b, a) != Crosses(p, c, b)) != Crosses(p, a, c))
  {
    hide Crosses;
    var path := [a, b, c, a];
    assert [a, b, c] == [a] + [b, c] && [a] + [b, c] + [a] == path;
    InsideFrom(p, a, [b, c]);
    assert path[..3] == [a, b, c] && [a, b, c][..2] == [a, b];
    TwoVertices(p, a, b);
  }

  /** The sides weigh the corners: the point comes out. */
  lemma Weighed(a: Vertex, b: Vertex, c: Vertex, p: Point)
    ensures Orient(a, b, p) * (c.lng - p.lng) + Orient(b, c, p) * (a.lng - p.lng) + Orient(c, a, p) * (b.lng - p.lng)
      == 0.0
    ensures Orient(a, b, p) * (c.lat - p.lat) + Orient(b, c, p) * (a.lat - p.lat) + Orient(c, a, p) * (b.lat - p.lat)
      == 0.0
    ensures Orient(a, b, p) + Orient(b, c, p) + Orient(c, a, p) == Orient(a, b, c)
  {
    var aLat, aLng := a.lat - p.lat, a.lng - p.lng;
    var bLat, bLng := b.lat - p.lat, b.lng - p.lng;
    var cLat, cLng := c.lat - p.lat, c.lng - p.lng;
    var ab, bc, ca := bLng * aLat - aLng * bLat, cLng * bLat - bLng * cLat, aLng * cLat - cLng * aLat;
    assert Orient(a, b, p) == ab && Orient(b, c, p) == bc && Orient(c, a, p) == ca;
    assert ab * cLng + bc * aLng + ca * bLng == 0.0;
    assert ab * cLat + bc * aLat + ca * bLat == 0.0;
    assert Orient(a, b, c) == (bLat - aLat) * (cLng - aLng) - (cLat - aLat) * (bLng - aLng);
  }

  /** The one corner on its side of the ray decides; the sides towards it are first and third. */
  lemma LoneCorner(ab: real, bc: real, ca: real, a: real, b: real, c: real)
    requires ab * c + bc * a + ca * b == 0.0
    requires (a > 0.0) != (b > 0.0) && (b > 0.0) == (c > 0.0)
    ensures var odd := if a > 0.0 then (ab < 0.0) != (ca > 0.0) else (ab > 0.0) != (ca < 0.0);
      odd ==> (ab >= 0.0 && bc >= 0.0 && ca >= 0.0) || (ab <= 0.0 && bc <= 0.0 && ca <= 0.0)
  {
    var x, y, z := ab * c, ca * b, bc * a;
    SignOf(ab, c);
    SignOf(ca, b);
    SignOf(bc, a);
  }

  lemma SignOf(s: real, x: real)
    ensures s > 0.0 && x > 0.0 ==> s * x > 0.0
    ensures s > 0.0 && x < 0.0 ==> s * x < 0.0
    ensures s < 0.0 && x > 0.0 ==> s * x < 0.0
    ensures s < 0.0 && x < 0.0 ==> s * x > 0.0
    ensures s == 0.0 || x == 0.0 ==> s * x == 0.0
  {
  }

  /** What the test says of a triangle is right of every point off its border. */
  lemma TriangleBySides(p: Point, a: Vertex, b: Vertex, c: Vertex)
    ensures var ab, bc, ca := Orient(a, b, p), Orient(b, c, p), Orient(c, a, p);
      && ((ab > 0.0 && bc > 0.0 && ca > 0.0) || (ab < 0.0 && bc < 0.0 && ca < 0.0) ==> Inside(p, [a, b, c]))
      && (Inside(p, [a, b, c]) ==> (ab >= 0.0 && bc >= 0.0 && ca >= 0.0) || (ab <= 0.0 && bc <= 0.0 && ca <= 0.0))
  {
    hide Crosses, Inside, Orient;
    var ab, bc, ca := Orient(a, b, p), Orient(b, c, p), Orient(c, a, p);
    var x, y, z := a.lng - p.lng, b.lng - p.lng, c.lng - p.lng;
    InsideTriangle(p, a, b, c);
    CrossesBySide(p, b, a);
    CrossesBySide(p, c, b);
    CrossesBySide(p, a, c);
    OrientFlips(a, b, p);
    OrientFlips(b, c, p);
    OrientFlips(c, a, p);
    Weighed(a, b, c, p);
    if (x > 0.0) == (y > 0.0) == (z > 0.0) {
      NotOneSide(p, a, b, c);
    } else if (y > 0.0) == (z > 0.0) {
      LoneCorner(ab, bc, ca, x, y, z);
    } else if (x > 0.0) == (z > 0.0) {
      LoneCorner(bc, ca, ab, y, z, x);
    } else {
      LoneCorner(ca, ab, bc, z, x, y);
    }
  }

  lemma NotOneSide(p: Point, a: Vertex, b: Vertex, c: Vertex)
    requires Above(a, p) == Above(b, p) == Above(c, p)
    ensures var ab, bc, ca := Orient(a, b, p), Orient(b, c, p), Orient(c, a, p);
      !((ab > 0.0 && bc > 0.0 && ca > 0.0) || (ab < 0.0 && bc < 0.0 && ca < 0.0))
  {
    hide Orient;
    Weighed(a, b, c, p);
    FlatSide(p, a, b);
    SameSide(Orient(a, b, p), Orient(b, c, p), Orient(c, a, p), a.lng - p.lng, b.lng - p.lng, c.lng - p.lng);
  }

  lemma FlatSide(p: Point, a: Vertex, b: Vertex)
    ensures a.lng == p.lng == b.lng ==> Orient(a, b, p) == 0.0
  {
  }

  lemma SameSide(ab: real, bc: real, ca: real, a: real, b: real, c: real)
    requires ab * c + bc * a + ca * b == 0.0
    requires (a > 0.0) == (b > 0.0) == (c > 0.0)
    requires a == 0.0 && b == 0.0 ==> ab == 0.0
    ensures !((ab > 0.0 && bc > 0.0 && ca > 0.0) || (ab < 0.0 && bc < 0.0 && ca < 0.0))
  {
    SignOf(ab, c);
    SignOf(bc, a);
    SignOf(ca, b);
  }

  /** The point that mixes the corners in the given proportions. */
  function Mix(a: Vertex, b: Vertex, c: Vertex, u: real, v: real, w: real): Point {
    Vertex(u * a.lat + v * b.lat + w * c.lat, u * a.lng + v * b.lng + w * c.lng)
  }

  lemma OrientOfMix(a: Vertex, b: Vertex, c: Vertex, u: real, v: real, w: real)
    requires u + v + w == 1.0
    ensures Orient(a, b, Mix(a, b, c, u, v, w)) == w * Orient(a, b, c)
  {
    var p := Mix(a, b, c, u, v, w);
    var x, y, r, q := b.lat - a.lat, b.lng - a.lng, c.lat - a.lat, c.lng - a.lng;
    assert p.lng - a.lng == v * y + w * q by {
      assert (u + v + w) * a.lng == a.lng;
    }
    assert p.lat - a.lat == v * x + w * r by {
      assert (u + v + w) * a.lat == a.lat;
    }
    assert x * (v * y + w * q) - (v * x + w * r) * y == w * (x * q - r * y);
  }

  lemma MixTurns(a: Vertex, b: Vertex, c: Vertex, u: real, v: real, w: real)
    ensures Mix(a, b, c, u, v, w) == Mix(b, c, a, v, w, u) == Mix(c, a, b, w, u, v)
  {
  }

  lemma OrientTurns(a: Vertex, b: Vertex, c: Vertex)
    ensures Orient(a, b, c) == Orient(b, c, a) == Orient(c, a, b)
  {
  }

  /** Every point strictly between the corners of a proper triangle is reported inside. */
  lemma MixIsInside(a: Vertex, b: Vertex, c: Vertex, u: real, v: real, w: real)
    requires u > 0.0 && v > 0.0 && w > 0.0 && u + v + w == 1.0 && Orient(a, b, c) != 0.0
    ensures Inside(Mix(a, b, c, u, v, w), [a, b, c])
  {
    hide Inside, Orient, Mix;
    MixTurns(a, b, c, u, v, w);
    OrientTurns(a, b, c);
    OrientOfMix(a, b, c, u, v, w);
    OrientOfMix(b, c, a, v, w, u);
    OrientOfMix(c, a, b, w, u, v);
    SignOf(w, Orient(a, b, c));
    SignOf(u, Orient(a, b, c));
    SignOf(v, Orient(a, b, c));
    TriangleBySides(Mix(a, b, c, u, v, w), a, b, c);
  }

  /** And every point reported inside a proper triangle lies between its corners. */
  lemma InsideIsMix(p: Point, a: Vertex, b: Vertex, c: Vertex) returns (u: real, v: real, w: real)
    requires Orient(a, b, c) != 0.0 && Inside(p, [a, b, c])
    ensures u >= 0.0 && v >= 0.0 && w >= 0.0 && u + v + w == 1.0 && p == Mix(a, b, c, u, v, w)
  {
    hide Inside, Orient;
    TriangleBySides(p, a, b, c);
    Weighed(a, b, c, p);
    u, v, w := Shares(Orient(b, c, p), Orient(c, a, p), Orient(a, b, p), Orient(a, b, c));
    MixedOut(u, v, w, Orient(a, b, c), a.lat, b.lat, c.lat, p.lat);
    MixedOut(u, v, w, Orient(a, b, c), a.lng, b.lng, c.lng, p.lng);
  }

  lemma Shares(bc: real, ca: real, ab: real, area: real) returns (u: real, v: real, w: real)
    requires area != 0.0 && ab + bc + ca == area
    requires (ab >= 0.0 && bc >= 0.0 && ca >= 0.0) || (ab <= 0.0 && bc <= 0.0 && ca <= 0.0)
    ensures u >= 0.0 && v >= 0.0 && w >= 0.0 && u + v + w == 1.0
    ensures u * area == bc && v * area == ca && w * area == ab
  {
    u := Share(bc, area);
    v := Share(ca, area);
    w := 1.0 - u - v;
    assert w * area == area - u * area - v * area;
    SignOf(w, area);
  }

  lemma Share(part: real, area: real) returns (u: real)
    requires area != 0.0
    ensures u * area == part
    ensures (part >= 0.0 && area > 0.0) || (part <= 0.0 && area < 0.0) ==> u >= 0.0
  {
    u := part / area;
    SignOf(u, area);
  }

  lemma MixedOut(u: real, v: real, w: real, area: real, a: real, b: real, c: real, p: real)
    requires u + v + w == 1.0 && area != 0.0
    requires (w * area) * (c - p) + (u * area) * (a - p) + (v * area) * (b - p) == 0.0
    ensures u * a + v * b + w * c == p
  {
    var d := w * (c - p) + u * (a - p) + v * (b - p);
    assert d * area == 0.0;
    assert d == u * a + v * b + w * c - (u + v + w) * p;
    assert (u + v + w) * p == p;
    SignOf(d, area);
  }

  // ----- A box, border included -----

  /** An edge along which only the longitude changes. */
  lemma LevelEdge(p: Point, i: Vertex, j: Vertex)
    requires i.lat == j.lat
    ensures Crosses(p, i, j) <==> ((i.lng <= p.lng < j.lng || j.lng <= p.lng < i.lng) && p.lat < i.lat)
  {
    if Above(i, p) != Above(j, p) {
      assert (j.lat - i.lat) * (p.lng - i.lng) == 0.0;
    }
  }

  /**
   A box of any size holds exactly the points from its southern and western sides, these included, to its northern and
   eastern sides, these excluded.
   */
  lemma BoxIsHalfOpen(p: Point, south: real, north: real, west: real, east: real)
    requires south < north && west < east
    ensures Inside(p, [Vertex(south, west), Vertex(north, west), Vertex(north, east), Vertex(south, east)])
      <==> south <= p.lat < north && west <= p.lng < east
  {
    hide Crosses;
    var a, b, c, d := Vertex(south, west), Vertex(north, west), Vertex(north, east), Vertex(south, east);
    var path := Around([a, b, c, d]);
    assert path == [d, a, b, c, d];
    assert path[..4] == [d, a, b, c] && path[..4][..3] == [d, a, b] && path[..4][..3][..2] == [d, a];
    assert [d, a][..1] == [d] && !OddAlong(p, [d]);
    LevelEdge(p, a, d);
    NoEdge(p, b, a);
    LevelEdge(p, c, b);
    NoEdge(p, d, c);
    assert OddAlong(p, [d, a]) == Crosses(p, a, d);
    assert OddAlong(p, [d, a, b]) == OddAlong(p, [d, a]);
    assert OddAlong(p, [d, a, b, c]) == (OddAlong(p, [d, a, b]) != Crosses(p, c, b));
    assert OddAlong(p, path) == OddAlong(p, [d, a, b, c]);
  }

  lemma NoEdge(p: Point, i: Vertex, j: Vertex)
    requires i.lng == j.lng
    ensures !Crosses(p, i, j)
  {
  }
}
