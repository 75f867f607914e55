/**
 The even-odd ray cast of routeGrouping.ts over exact real coordinates, and what it
 computes: it does not depend on where the vertex list starts or which way it runs,
 polygons can be cut along diagonals, and on a triangle it agrees with the
 half-plane definition of "inside".
 */
module Polygon {
  import opened Rings

  datatype Coordinate = Coordinate(latitude: real, longitude: real)

  predicate CrossesLatitude(point: Coordinate, current: Coordinate, previous: Coordinate) {
    (current.latitude > point.latitude) != (previous.latitude > point.latitude)
  }

  function LongitudeAtLatitude(point: Coordinate, current: Coordinate, previous: Coordinate): real
    requires CrossesLatitude(point, current, previous)
  {
    ((previous.longitude - current.longitude) * (point.latitude - current.latitude))
      / (previous.latitude - current.latitude) + current.longitude
  }

  /** The eastward ray from `point` meets the edge. */
  predicate Hit(point: Coordinate, current: Coordinate, previous: Coordinate) {
    CrossesLatitude(point, current, previous)
    && point.longitude < LongitudeAtLatitude(point, current, previous)
  }

  function Ray(point: Coordinate): (Coordinate, Coordinate) -> bool {
    (current, previous) => Hit(point, current, previous)
  }

  /** Reference definition: at least three vertices, and an odd number of hits around the ring. */
  predicate Inside(point: Coordinate, vertices: seq<Coordinate>) {
    |vertices| >= 3 && Parity(Ray(point), Ring(vertices))
  }

  /** coordinateInPolygon: the loop starts with the closing edge and toggles a flag. */
  method CoordinateInPolygon(point: Coordinate, polygonVertices: seq<Coordinate>) returns (inside: bool)
    ensures inside == Inside(point, polygonVertices)
  {
    var n := |polygonVertices|;
    if n < 3 {
      return false;
    }
    inside := false;
    var currentIndex, previousIndex := 0, n - 1;
    ghost var closing := Hit(point, polygonVertices[0], polygonVertices[n - 1]);
    while currentIndex < n
      invariant 0 <= currentIndex <= n
      invariant previousIndex == if currentIndex == 0 then n - 1 else currentIndex - 1
      invariant currentIndex == 0 ==> !inside
      invariant currentIndex > 0 ==> inside == (closing != Parity(Ray(point), polygonVertices[..currentIndex]))
    {
      var current, previous := polygonVertices[currentIndex], polygonVertices[previousIndex];
      if currentIndex > 0 {
        ParityAppend(Ray(point), polygonVertices[..currentIndex], current);
        assert polygonVertices[..currentIndex + 1] == polygonVertices[..currentIndex] + [current];
      }
      if CrossesLatitude(point, current, previous) {
        if point.longitude < LongitudeAtLatitude(point, current, previous) {
          inside := !inside;
        }
      }
      previousIndex, currentIndex := currentIndex, currentIndex + 1;
    }
    assert polygonVertices[..n] == polygonVertices;
    ParityAppend(Ray(point), polygonVertices, polygonVertices[0]);
  }

  // ----- the single edge -----

  /** Twice the signed area of the triangle a, b, p; positive when p is left of a to b. */
  function Side(a: Coordinate, b: Coordinate, p: Coordinate): real {
    (b.longitude - a.longitude) * (p.latitude - a.latitude)
    - (b.latitude - a.latitude) * (p.longitude - a.longitude)
  }

  lemma DivideLess(n: real, d: real, x: real)
    requires d != 0.0
    ensures d > 0.0 ==> (x < n / d <==> x * d < n)
    ensures d < 0.0 ==> (x < n / d <==> n < x * d)
  {
    var q := n / d;
    assert q * d == n;
    if x < q {
      assert d > 0.0 ==> (q - x) * d > 0.0;
      assert d < 0.0 ==> (q - x) * d < 0.0;
    } else {
      assert d > 0.0 ==> (x - q) * d >= 0.0;
      assert d < 0.0 ==> (x - q) * d <= 0.0;
    }
  }

  /** An upward edge is hit from its left, a downward edge from its right. */
  ghost predicate HitBySide(from: real, to: real, latitude: real, side: real) {
    || (from <= latitude < to && side > 0.0)
    || (to <= latitude < from && side < 0.0)
  }

  lemma HitSide(p: Coordinate, a: Coordinate, b: Coordinate)
    ensures Hit(p, b, a) == HitBySide(a.latitude, b.latitude, p.latitude, Side(a, b, p))
  {
    if CrossesLatitude(p, b, a) {
      DivideLess((a.longitude - b.longitude) * (p.latitude - b.latitude), a.latitude - b.latitude,
                 p.longitude - b.longitude);
    }
  }

  lemma RaySymmetric(p: Coordinate)
    ensures Symmetric(Ray(p))
  {
    forall a, b ensures Ray(p)(a, b) == Ray(p)(b, a) {
      HitSide(p, a, b);
      HitSide(p, b, a);
      assert Side(a, b, p) == -Side(b, a, p);
    }
  }

  // ----- invariance -----

  /** Starting the vertex list elsewhere, or walking it backwards, changes no answer. */
  lemma InsideUnchangedByRotationAndReversal(p: Coordinate, vs: seq<Coordinate>, k: nat)
    requires k < |vs|
    ensures Inside(p, Rotate(vs, k)) == Inside(p, vs)
    ensures Inside(p, Reverse(vs)) == Inside(p, vs)
  {
    RotateParity(Ray(p), vs, k);
    RaySymmetric(p);
    ReverseParity(Ray(p), vs);
  }

  lemma TriangleParity(p: Coordinate, a: Coordinate, b: Coordinate, c: Coordinate)
    ensures Inside(p, [a, b, c]) == (Hit(p, b, a) != (Hit(p, c, b) != Hit(p, a, c)))
  {
    var ray := Ray(p);
    assert Ring([a, b, c]) == [a, b, c, a];
    assert [a, b, c, a][1..] == [b, c, a] && [b, c, a][1..] == [c, a] && [c, a][1..] == [a];
    assert Parity(ray, [c, a]) == ray(a, c);
    assert Parity(ray, [b, c, a]) == (ray(c, b) != ray(a, c));
  }

  /** The closed form of a GeoJSON ring, first position repeated, answers as the open form. */
  lemma InsideUnchangedByClosing(p: Coordinate, vs: seq<Coordinate>)
    requires vs != []
    ensures Inside(p, Ring(vs)) == Inside(p, vs)
  {
    ParityAppend(Ray(p), Ring(vs), vs[0]);
    if |vs| == 2 {
      var a, b := vs[0], vs[1];
      assert Ring(vs) == [a, b, a];
      TriangleParity(p, a, b, a);
      RaySymmetric(p);
      assert Ray(p)(a, b) == Ray(p)(b, a);
    }
  }

  /** `v` divides the segment from a to b in the ratio t : 1 - t. */
  ghost predicate OnSegment(a: Coordinate, v: Coordinate, b: Coordinate, t: real) {
    && 0.0 <= t <= 1.0
    && v.latitude == a.latitude + t * (b.latitude - a.latitude)
    && v.longitude == a.longitude + t * (b.longitude - a.longitude)
  }

  lemma Regroup(x: real, y: real, z: real)
    ensures (x * y) * z == x * (y * z)
  {
  }

  lemma SegmentSides(p: Coordinate, a: Coordinate, v: Coordinate, b: Coordinate, t: real)
    requires OnSegment(a, v, b, t)
    ensures Side(a, v, p) == t * Side(a, b, p)
    ensures Side(v, b, p) == (1.0 - t) * Side(a, b, p)
  {
    var dx, dy := b.longitude - a.longitude, b.latitude - a.latitude;
    var py, px := p.latitude - a.latitude, p.longitude - a.longitude;
    assert Side(a, v, p) == (t * dx) * py - (t * dy) * px;
    assert (t * dx) * py == t * (dx * py) && (t * dy) * px == t * (dy * px);
    calc {
      Side(v, b, p);
      (dx - t * dx) * (py - t * dy) - (dy - t * dy) * (px - t * dx);
      { assert dx - t * dx == (1.0 - t) * dx && dy - t * dy == (1.0 - t) * dy; }
      ((1.0 - t) * dx) * (py - t * dy) - ((1.0 - t) * dy) * (px - t * dx);
      { Regroup(1.0 - t, dx, py - t * dy); Regroup(1.0 - t, dy, px - t * dx); }
      (1.0 - t) * (dx * (py - t * dy)) - (1.0 - t) * (dy * (px - t * dx));
      { assert dx * (t * dy) == dy * (t * dx); }
      (1.0 - t) * (dx * py - dy * px);
    }
  }

  lemma BySideSplits(from: real, mid: real, to: real, latitude: real, s: real, first: real, second: real)
    requires from <= mid <= to || to <= mid <= from
    requires mid != from ==> (first > 0.0 <==> s > 0.0) && (first < 0.0 <==> s < 0.0)
    requires mid != to ==> (second > 0.0 <==> s > 0.0) && (second < 0.0 <==> s < 0.0)
    ensures HitBySide(from, to, latitude, s)
         == (HitBySide(from, mid, latitude, first) != HitBySide(mid, to, latitude, second))
  {
  }

  ghost predicate SignOfProduct(x: real, y: real, product: real) {
    && (product > 0.0 <==> (x > 0.0 && y > 0.0) || (x < 0.0 && y < 0.0))
    && (product < 0.0 <==> (x > 0.0 && y < 0.0) || (x < 0.0 && y > 0.0))
  }

  lemma ProductSign(x: real, y: real)
    ensures SignOfProduct(x, y, x * y)
  {
  }

  lemma Between(from: real, mid: real, to: real, t: real)
    requires 0.0 <= t <= 1.0 && mid == from + t * (to - from)
    ensures from <= mid <= to || to <= mid <= from
  {
    var d := to - from;
    assert mid - from == t * d && to - mid == (1.0 - t) * d;
    ProductSign(t, d);
    ProductSign(1.0 - t, d);
  }

  lemma ScaledSigns(t: real, s: real, scaled: real)
    requires 0.0 <= t && scaled == t * s
    ensures t > 0.0 ==> (scaled > 0.0 <==> s > 0.0) && (scaled < 0.0 <==> s < 0.0)
  {
  }

  lemma SegmentSigns(p: Coordinate, a: Coordinate, v: Coordinate, b: Coordinate, t: real)
    requires OnSegment(a, v, b, t)
    ensures a.latitude <= v.latitude <= b.latitude || b.latitude <= v.latitude <= a.latitude
    ensures v.latitude != a.latitude ==>
              (Side(a, v, p) > 0.0 <==> Side(a, b, p) > 0.0) && (Side(a, v, p) < 0.0 <==> Side(a, b, p) < 0.0)
    ensures v.latitude != b.latitude ==>
              (Side(v, b, p) > 0.0 <==> Side(a, b, p) > 0.0) && (Side(v, b, p) < 0.0 <==> Side(a, b, p) < 0.0)
  {
    var s := Side(a, b, p);
    assert a.latitude <= v.latitude <= b.latitude || b.latitude <= v.latitude <= a.latitude by {
      Between(a.latitude, v.latitude, b.latitude, t);
    }
    assert Side(a, v, p) == t * s && Side(v, b, p) == (1.0 - t) * s by {
      SegmentSides(p, a, v, b, t);
    }
    ScaledSigns(t, s, Side(a, v, p));
    ScaledSigns(1.0 - t, s, Side(v, b, p));
  }

  lemma HitSplitsAtVertex(p: Coordinate, a: Coordinate, v: Coordinate, b: Coordinate, t: real)
    requires OnSegment(a, v, b, t)
    ensures Hit(p, b, a) == (Hit(p, v, a) != Hit(p, b, v))
  {
    var s, first, second := Side(a, b, p), Side(a, v, p), Side(v, b, p);
    HitSide(p, a, b);
    HitSide(p, a, v);
    HitSide(p, v, b);
    assert HitBySide(a.latitude, b.latitude, p.latitude, s)
        == (HitBySide(a.latitude, v.latitude, p.latitude, first)
            != HitBySide(v.latitude, b.latitude, p.latitude, second))
    by {
      SegmentSigns(p, a, v, b, t);
      BySideSplits(a.latitude, v.latitude, b.latitude, p.latitude, s, first, second);
    }
  }

  /** Inserting a vertex that lies on the edge into which it is inserted changes no answer. */
  lemma InsideUnchangedByVertexOnEdge(p: Coordinate, vs: seq<Coordinate>, k: nat, v: Coordinate, t: real)
    requires |vs| >= 3 && k <= |vs|
    requires OnSegment(vs[if k == 0 then |vs| - 1 else k - 1], v, vs[if k == |vs| then 0 else k], t)
    ensures Inside(p, vs[..k] + [v] + vs[k..]) == Inside(p, vs)
  {
    HitSplitsAtVertex(p, vs[if k == 0 then |vs| - 1 else k - 1], v, vs[if k == |vs| then 0 else k], t);
    InsertParity(Ray(p), vs, k, v);
  }

  // ----- cutting polygons -----

  /** A diagonal cuts a polygon into two: a point is inside exactly if it is inside an odd number of the pieces. */
  lemma DiagonalSplitsInside(p: Coordinate, vs: seq<Coordinate>, i: nat, j: nat)
    requires i + 2 <= j < |vs| && j - i <= |vs| - 2
    ensures Inside(p, vs) == (Inside(p, vs[i..j + 1]) != Inside(p, vs[j..] + vs[..i + 1]))
  {
    RaySymmetric(p);
    SplitParity(Ray(p), vs, i, j);
  }

  /** How many triangles of the fan around the first vertex contain the point, modulo two. */
  ghost predicate OddFan(p: Coordinate, apex: Coordinate, rim: seq<Coordinate>) {
    |rim| >= 2 && (Inside(p, [apex, rim[0], rim[1]]) != OddFan(p, apex, rim[1..]))
  }

  /** A point is inside exactly when it lies in an odd number of the triangles of the fan. */
  lemma {:induction false} InsideIsOddFan(p: Coordinate, vs: seq<Coordinate>)
    requires |vs| >= 3
    ensures Inside(p, vs) == OddFan(p, vs[0], vs[1..])
  {
    if |vs| == 3 {
      assert [vs[0], vs[1], vs[2]] == vs;
      assert vs[1..][1..] == [vs[2]];
    } else {
      DiagonalSplitsInside(p, vs, 0, 2);
      assert vs[0..3] == [vs[0], vs[1], vs[2]];
      var rest := [vs[0]] + vs[2..];
      assert Rotate(vs[2..] + vs[..1], |vs| - 2) == rest;
      RotateParity(Ray(p), vs[2..] + vs[..1], |vs| - 2);
      InsideIsOddFan(p, rest);
      assert rest[1..] == vs[1..][1..];
    }
  }

  // ----- agreement with half-planes -----

  /** The three sides weight the corners so that they average to the point. */
  lemma Barycentric(a: Coordinate, b: Coordinate, c: Coordinate, p: Coordinate)
    ensures Side(b, c, p) * (a.latitude - p.latitude) + Side(c, a, p) * (b.latitude - p.latitude)
            + Side(a, b, p) * (c.latitude - p.latitude) == 0.0
  {
    var aLon, aLat := a.longitude - p.longitude, a.latitude - p.latitude;
    var bLon, bLat := b.longitude - p.longitude, b.latitude - p.latitude;
    var cLon, cLat := c.longitude - p.longitude, c.latitude - p.latitude;
    assert Side(a, b, p) == aLon * bLat - aLat * bLon;
    assert Side(b, c, p) == bLon * cLat - bLat * cLon;
    assert Side(c, a, p) == cLon * aLat - cLat * aLon;
  }

  /** p is on the same side of all three edges. */
  predicate StrictlyWithin(p: Coordinate, a: Coordinate, b: Coordinate, c: Coordinate) {
    || (Side(a, b, p) > 0.0 && Side(b, c, p) > 0.0 && Side(c, a, p) > 0.0)
    || (Side(a, b, p) < 0.0 && Side(b, c, p) < 0.0 && Side(c, a, p) < 0.0)
  }

  predicate Within(p: Coordinate, a: Coordinate, b: Coordinate, c: Coordinate) {
    || (Side(a, b, p) >= 0.0 && Side(b, c, p) >= 0.0 && Side(c, a, p) >= 0.0)
    || (Side(a, b, p) <= 0.0 && Side(b, c, p) <= 0.0 && Side(c, a, p) <= 0.0)
  }

  lemma BySideFlatSigns(a: real, b: real, c: real, y: real, ab: real, bc: real, ca: real, u: real, v: real, w: real)
    requires ab + bc + ca == 0.0
    requires SignOfProduct(bc, a - y, u) && SignOfProduct(ca, b - y, v) && SignOfProduct(ab, c - y, w)
    requires u + v + w == 0.0
    ensures HitBySide(a, b, y, ab) == (HitBySide(b, c, y, bc) != HitBySide(c, a, y, ca))
  {
  }

  lemma BySideFlat(a: real, b: real, c: real, y: real, ab: real, bc: real, ca: real)
    requires ab + bc + ca == 0.0
    requires bc * (a - y) + ca * (b - y) + ab * (c - y) == 0.0
    ensures HitBySide(a, b, y, ab) == (HitBySide(b, c, y, bc) != HitBySide(c, a, y, ca))
  {
    var da, db, dc := a - y, b - y, c - y;
    ProductSign(bc, da);
    ProductSign(ca, db);
    ProductSign(ab, dc);
    BySideFlatSigns(a, b, c, y, ab, bc, ca, bc * da, ca * db, ab * dc);
  }

  lemma FlatInside(p: Coordinate, a: Coordinate, b: Coordinate, c: Coordinate)
    requires Side(a, b, c) == 0.0
    ensures !Inside(p, [a, b, c])
  {
    TriangleParity(p, a, b, c);
    HitSide(p, a, b);
    HitSide(p, b, c);
    HitSide(p, c, a);
    Barycentric(a, b, c, p);
    assert Side(a, b, p) + Side(b, c, p) + Side(c, a, p) == Side(a, b, c);
    BySideFlat(a.latitude, b.latitude, c.latitude, p.latitude, Side(a, b, p), Side(b, c, p), Side(c, a, p));
  }

  lemma BySideSigns(a: real, b: real, c: real, y: real, ab: real, bc: real, ca: real, u: real, v: real, w: real)
    requires ab + bc + ca > 0.0 && !(a == b == c)
    requires SignOfProduct(bc, a - y, u) && SignOfProduct(ca, b - y, v) && SignOfProduct(ab, c - y, w)
    requires u + v + w == 0.0
    ensures ab > 0.0 && bc > 0.0 && ca > 0.0 ==>
              HitBySide(a, b, y, ab) != (HitBySide(b, c, y, bc) != HitBySide(c, a, y, ca))
    ensures HitBySide(a, b, y, ab) != (HitBySide(b, c, y, bc) != HitBySide(c, a, y, ca)) ==>
              ab >= 0.0 && bc >= 0.0 && ca >= 0.0
  {
  }

  lemma BySideTriangle(a: real, b: real, c: real, y: real, ab: real, bc: real, ca: real)
    requires ab + bc + ca > 0.0 && !(a == b == c)
    requires bc * (a - y) + ca * (b - y) + ab * (c - y) == 0.0
    ensures ab > 0.0 && bc > 0.0 && ca > 0.0 ==>
              HitBySide(a, b, y, ab) != (HitBySide(b, c, y, bc) != HitBySide(c, a, y, ca))
    ensures HitBySide(a, b, y, ab) != (HitBySide(b, c, y, bc) != HitBySide(c, a, y, ca)) ==>
              ab >= 0.0 && bc >= 0.0 && ca >= 0.0
  {
    var da, db, dc := a - y, b - y, c - y;
    ProductSign(bc, da);
    ProductSign(ca, db);
    ProductSign(ab, dc);
    BySideSigns(a, b, c, y, ab, bc, ca, bc * da, ca * db, ab * dc);
  }

  lemma CounterClockwiseInside(p: Coordinate, a: Coordinate, b: Coordinate, c: Coordinate)
    requires Side(a, b, c) > 0.0
    ensures Side(a, b, p) > 0.0 && Side(b, c, p) > 0.0 && Side(c, a, p) > 0.0 ==> Inside(p, [a, b, c])
    ensures Inside(p, [a, b, c]) ==> Side(a, b, p) >= 0.0 && Side(b, c, p) >= 0.0 && Side(c, a, p) >= 0.0
  {
    TriangleParity(p, a, b, c);
    HitSide(p, a, b);
    HitSide(p, b, c);
    HitSide(p, c, a);
    Barycentric(a, b, c, p);
    assert Side(a, b, p) + Side(b, c, p) + Side(c, a, p) == Side(a, b, c);
    BySideTriangle(a.latitude, b.latitude, c.latitude, p.latitude, Side(a, b, p), Side(b, c, p), Side(c, a, p));
  }

  /**
   On every triangle the ray cast is squeezed between the open triangle and the closed
   one, so it is right for every point that is not on an edge; a triangle without area
   contains no point.
   */
  lemma TriangleInside(p: Coordinate, a: Coordinate, b: Coordinate, c: Coordinate)
    ensures StrictlyWithin(p, a, b, c) ==> Inside(p, [a, b, c])
    ensures Inside(p, [a, b, c]) ==> Within(p, a, b, c)
    ensures Side(a, b, c) == 0.0 ==> !Inside(p, [a, b, c])
  {
    if Side(a, b, c) > 0.0 {
      CounterClockwiseInside(p, a, b, c);
    } else if Side(a, b, c) == 0.0 {
      FlatInside(p, a, b, c);
    } else {
      assert Side(c, b, a) == -Side(a, b, c);
      CounterClockwiseInside(p, c, b, a);
      InsideUnchangedByRotationAndReversal(p, [a, b, c], 0);
      assert Reverse([a, b, c]) == [c, b, a] by {
        assert [a, b, c][1..] == [b, c] && [b, c][1..] == [c];
        assert Reverse([c]) == [c] && Reverse([b, c]) == [c, b];
      }
    }
    assert Side(a, b, p) + Side(b, c, p) + Side(c, a, p) == Side(a, b, c);
    assert Side(c, b, p) == -Side(b, c, p) && Side(b, a, p) == -Side(a, b, p) && Side(a, c, p) == -Side(c, a, p);
  }

  // ----- the bounding box -----

  lemma ProperFraction(n: real, d: real)
    requires (0.0 <= n <= d && d > 0.0) || (d <= n <= 0.0 && d < 0.0)
    ensures 0.0 <= n / d <= 1.0
  {
    var q := n / d;
    assert q * d == n;
    ProductSign(q, d);
    ProductSign(1.0 - q, d);
  }

  lemma DivideProduct(w: real, n: real, d: real)
    requires d != 0.0
    ensures (w * n) / d == (n / d) * w
  {
    var q := n / d;
    assert q * d == n;
    assert w * n == (q * w) * d;
  }

  lemma CrossingBetween(p: Coordinate, c: Coordinate, q: Coordinate, west: real, east: real)
    requires CrossesLatitude(p, c, q)
    requires west <= c.longitude <= east && west <= q.longitude <= east
    ensures west <= LongitudeAtLatitude(p, c, q) <= east
  {
    var n, d := p.latitude - c.latitude, q.latitude - c.latitude;
    var w := q.longitude - c.longitude;
    ProperFraction(n, d);
    DivideProduct(w, n, d);
    Between(c.longitude, LongitudeAtLatitude(p, c, q), q.longitude, n / d);
  }

  /** No point outside the bounding box of a polygon is reported inside. */
  lemma OutsideBoundingBox(p: Coordinate, vs: seq<Coordinate>, south: real, north: real, west: real, east: real)
    requires forall v :: v in vs ==> south <= v.latitude <= north && west <= v.longitude <= east
    requires p.latitude < south || p.latitude >= north || p.longitude < west || p.longitude >= east
    ensures !Inside(p, vs)
  {
    if |vs| < 3 { return; }
    var ring := Ring(vs);
    var crossing := (c: Coordinate, q: Coordinate) => CrossesLatitude(p, c, q);
    var none := (c: Coordinate, q: Coordinate) => false;
    forall c, q | c in ring && q in ring
      ensures p.longitude < west ==> Ray(p)(c, q) == crossing(c, q)
      ensures p.longitude >= west ==> Ray(p)(c, q) == none(c, q)
    {
      if CrossesLatitude(p, c, q) {
        CrossingBetween(p, c, q, west, east);
      }
    }
    if p.longitude < west {
      ParityCongruence(Ray(p), crossing, ring);
      ColourChangesAreEven((v: Coordinate) => v.latitude > p.latitude, crossing, ring);
    } else {
      ParityCongruence(Ray(p), none, ring);
      ColourChangesAreEven((v: Coordinate) => true, none, ring);
    }
  }
}
