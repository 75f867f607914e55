/**
 What the ray cast of routeGrouping.ts decides on convex polygons of any size: exactly
 which points, those of the boundary included, are inside.
 */
module Convex {
  import opened Polygon
  import opened Rings

  /** Counter-clockwise and strictly convex: every other vertex lies left of every edge. */
  ghost predicate StrictlyConvex(vs: seq<Coordinate>) {
    && |vs| >= 3
    && forall i, k :: 0 <= i < |vs| && 0 <= k < |vs| && k != i && k != Succ(i, |vs|) ==>
         Side(vs[i], vs[Succ(i, |vs|)], vs[k]) > 0.0
  }

  /** p is left of the i-th edge, or on its line. */
  predicate LeftOf(vs: seq<Coordinate>, i: nat, p: Coordinate)
    requires i < |vs|
  {
    Side(vs[i], vs[Succ(i, |vs|)], p) >= 0.0
  }

  predicate StrictlyLeftOf(vs: seq<Coordinate>, i: nat, p: Coordinate)
    requires i < |vs|
  {
    Side(vs[i], vs[Succ(i, |vs|)], p) > 0.0
  }

  // ----- where an edge meets a latitude -----

  function Ratio(a: Coordinate, b: Coordinate, y: real): real
    requires a.latitude != b.latitude
  {
    (y - a.latitude) / (b.latitude - a.latitude)
  }

  /** The point of the line through a and b at latitude y. */
  function Cut(a: Coordinate, b: Coordinate, y: real): Coordinate
    requires a.latitude != b.latitude
  {
    Coordinate(y, a.longitude + Ratio(a, b, y) * (b.longitude - a.longitude))
  }

  lemma RatioTimes(n: real, d: real)
    requires d != 0.0
    ensures (n / d) * d == n
  {
  }

  lemma CutOnSegment(a: Coordinate, b: Coordinate, y: real)
    requires a.latitude <= y < b.latitude || b.latitude <= y < a.latitude
    ensures OnSegment(a, Cut(a, b, y), b, Ratio(a, b, y))
  {
    ProperFraction(y - a.latitude, b.latitude - a.latitude);
    RatioTimes(y - a.latitude, b.latitude - a.latitude);
  }

  lemma SideAtLatitude(a: Coordinate, b: Coordinate, q: Coordinate)
    requires a.latitude != b.latitude
    ensures Side(a, b, q) == (b.latitude - a.latitude) * (Cut(a, b, q.latitude).longitude - q.longitude)
  {
    var n, d, w := q.latitude - a.latitude, b.latitude - a.latitude, b.longitude - a.longitude;
    var t := Ratio(a, b, q.latitude);
    RatioTimes(n, d);
    assert w * n == (t * w) * d by { Regroup(t, d, w); Regroup(t, w, d); }
  }

  lemma SignFollows(side: real, rise: real, east: real)
    requires side == rise * east
    ensures rise > 0.0 ==> (side > 0.0 <==> east > 0.0) && (side >= 0.0 <==> east >= 0.0)
    ensures rise < 0.0 ==> (side < 0.0 <==> east > 0.0)
  {
    ProductSign(rise, east);
  }

  /** A point at latitude y is left of an upward edge exactly if it is west of the cut; of a downward edge, east. */
  lemma WestOfCut(a: Coordinate, b: Coordinate, q: Coordinate)
    requires CrossesLatitude(q, b, a)
    ensures a.latitude < b.latitude ==>
              (Side(a, b, q) > 0.0 <==> q.longitude < Cut(a, b, q.latitude).longitude)
              && (Side(a, b, q) >= 0.0 <==> q.longitude <= Cut(a, b, q.latitude).longitude)
    ensures b.latitude < a.latitude ==> (Side(a, b, q) < 0.0 <==> q.longitude < Cut(a, b, q.latitude).longitude)
  {
    var rise, east := b.latitude - a.latitude, Cut(a, b, q.latitude).longitude - q.longitude;
    SideAtLatitude(a, b, q);
    SignFollows(Side(a, b, q), rise, east);
  }

  lemma HitIsWest(p: Coordinate, a: Coordinate, b: Coordinate)
    ensures Hit(p, b, a) <==> CrossesLatitude(p, b, a) && p.longitude < Cut(a, b, p.latitude).longitude
  {
    HitSide(p, a, b);
    if CrossesLatitude(p, b, a) {
      WestOfCut(a, b, p);
    }
  }

  lemma SideAffine(c: Coordinate, d: Coordinate, a: Coordinate, v: Coordinate, b: Coordinate, t: real)
    requires OnSegment(a, v, b, t)
    ensures Side(c, d, v) == (1.0 - t) * Side(c, d, a) + t * Side(c, d, b)
  {
    var dx, dy := d.longitude - c.longitude, d.latitude - c.latitude;
    var ay, ax := a.latitude - c.latitude, a.longitude - c.longitude;
    var ey, ex := b.latitude - a.latitude, b.longitude - a.longitude;
    assert Side(c, d, v) == dx * (ay + t * ey) - dy * (ax + t * ex);
    assert dx * (t * ey) == t * (dx * ey) && dy * (t * ex) == t * (dy * ex);
    assert Side(c, d, b) == dx * (ay + ey) - dy * (ax + ex);
  }

  lemma AffineSign(t: real, x: real, y: real, s: real)
    requires 0.0 <= t <= 1.0 && s == (1.0 - t) * x + t * y
    ensures x >= 0.0 && y >= 0.0 ==> s >= 0.0
    ensures x > 0.0 && y > 0.0 ==> s > 0.0
  {
    ProductSign(1.0 - t, x);
    ProductSign(t, y);
  }

  /** A point between two points left of an edge is left of it. */
  lemma BetweenIsLeft(vs: seq<Coordinate>, e: nat, a: Coordinate, v: Coordinate, b: Coordinate, t: real)
    requires e < |vs| && OnSegment(a, v, b, t)
    ensures LeftOf(vs, e, a) && LeftOf(vs, e, b) ==> LeftOf(vs, e, v)
    ensures StrictlyLeftOf(vs, e, a) && StrictlyLeftOf(vs, e, b) ==> StrictlyLeftOf(vs, e, v)
  {
    var c, d := vs[e], vs[Succ(e, |vs|)];
    SideAffine(c, d, a, v, b, t);
    AffineSign(t, Side(c, d, a), Side(c, d, b), Side(c, d, v));
  }

  lemma VertexIsLeft(vs: seq<Coordinate>, e: nat, k: nat)
    requires StrictlyConvex(vs) && e < |vs| && k < |vs|
    ensures LeftOf(vs, e, vs[k])
    ensures k != e && k != Succ(e, |vs|) ==> StrictlyLeftOf(vs, e, vs[k])
  {
  }

  // ----- each latitude is crossed at most once upwards and once downwards -----

  predicate Up(vs: seq<Coordinate>, i: nat, y: real) {
    i < |vs| && vs[i].latitude <= y < vs[Succ(i, |vs|)].latitude
  }

  predicate Down(vs: seq<Coordinate>, i: nat, y: real) {
    i < |vs| && vs[Succ(i, |vs|)].latitude <= y < vs[i].latitude
  }

  function CutOf(vs: seq<Coordinate>, i: nat, y: real): Coordinate
    requires Up(vs, i, y) || Down(vs, i, y)
  {
    Cut(vs[i], vs[Succ(i, |vs|)], y)
  }

  /** The cut of an edge is left of every edge, strictly if the two edges share no vertex. */
  lemma CutIsLeft(vs: seq<Coordinate>, e: nat, i: nat, y: real)
    requires StrictlyConvex(vs) && e < |vs| && (Up(vs, i, y) || Down(vs, i, y))
    ensures LeftOf(vs, e, CutOf(vs, i, y))
    ensures (var n := |vs|; i != e && i != Succ(e, n) && Succ(i, n) != e && Succ(i, n) != Succ(e, n)) ==>
              StrictlyLeftOf(vs, e, CutOf(vs, i, y))
  {
    var j := Succ(i, |vs|);
    CutOnSegment(vs[i], vs[j], y);
    VertexIsLeft(vs, e, i);
    VertexIsLeft(vs, e, j);
    BetweenIsLeft(vs, e, vs[i], CutOf(vs, i, y), vs[j], Ratio(vs[i], vs[j], y));
  }

  lemma OneUp(vs: seq<Coordinate>, i: nat, j: nat, y: real)
    requires StrictlyConvex(vs) && Up(vs, i, y) && Up(vs, j, y)
    ensures i == j
  {
    if i != j {
      CutIsLeft(vs, i, j, y);
      CutIsLeft(vs, j, i, y);
      WestOfCut(vs[i], vs[Succ(i, |vs|)], CutOf(vs, j, y));
      WestOfCut(vs[j], vs[Succ(j, |vs|)], CutOf(vs, i, y));
      assert false;
    }
  }

  lemma OneDown(vs: seq<Coordinate>, i: nat, j: nat, y: real)
    requires StrictlyConvex(vs) && Down(vs, i, y) && Down(vs, j, y)
    ensures i == j
  {
    if i != j {
      CutIsLeft(vs, i, j, y);
      CutIsLeft(vs, j, i, y);
      WestOfCut(vs[i], vs[Succ(i, |vs|)], CutOf(vs, j, y));
      WestOfCut(vs[j], vs[Succ(j, |vs|)], CutOf(vs, i, y));
      assert false;
    }
  }

  /** Vertices on both sides of a latitude give one edge up and one edge down. */
  lemma UpAndDown(vs: seq<Coordinate>, y: real, l: nat, h: nat) returns (u: nat, d: nat)
    requires l < |vs| && h < |vs| && vs[l].latitude <= y < vs[h].latitude
    ensures Up(vs, u, y) && Down(vs, d, y)
  {
    var cs := seq(|vs|, i requires 0 <= i < |vs| => vs[i].latitude > y);
    u := ChangeAround(cs, l, h);
    d := ChangeAround(cs, h, l);
  }

  // ----- the extreme vertices -----

  lemma {:induction false} Highest(vs: seq<Coordinate>) returns (k: nat)
    requires vs != []
    ensures k < |vs| && forall i :: 0 <= i < |vs| ==> vs[i].latitude <= vs[k].latitude
  {
    var n := |vs| - 1;
    if n == 0 {
      k := 0;
    } else {
      k := Highest(vs[..n]);
      if vs[n].latitude > vs[k].latitude { k := n; }
    }
  }

  lemma {:induction false} Lowest(vs: seq<Coordinate>) returns (k: nat)
    requires vs != []
    ensures k < |vs| && forall i :: 0 <= i < |vs| ==> vs[k].latitude <= vs[i].latitude
  {
    var n := |vs| - 1;
    if n == 0 {
      k := 0;
    } else {
      k := Lowest(vs[..n]);
      if vs[n].latitude < vs[k].latitude { k := n; }
    }
  }

  lemma Spread(x: real, y: real, z: real, a: real, t: real, b: real, p: real)
    requires x * (a - p) + y * (t - p) + z * (b - p) == 0.0
    ensures (z + x + y) * (p - t) == x * (a - t) + z * (b - t)
  {
    assert x * (a - p) == x * (a - t) - x * (p - t);
    assert z * (b - p) == z * (b - t) - z * (p - t);
  }

  lemma Cone(a: Coordinate, t: Coordinate, b: Coordinate, p: Coordinate)
    ensures Side(a, t, b) * (p.latitude - t.latitude)
         == Side(t, b, p) * (a.latitude - t.latitude) + Side(a, t, p) * (b.latitude - t.latitude)
  {
    Barycentric(a, t, b, p);
    assert Side(a, t, p) + Side(t, b, p) + Side(b, a, p) == Side(a, t, b);
    Spread(Side(t, b, p), Side(b, a, p), Side(a, t, p), a.latitude, t.latitude, b.latitude, p.latitude);
  }

  lemma ConeSign(s: real, x: real, z: real, da: real, db: real, dp: real)
    requires s > 0.0 && x > 0.0 && z > 0.0 && s * dp == x * da + z * db && !(da == 0.0 && db == 0.0)
    ensures da <= 0.0 && db <= 0.0 ==> dp < 0.0
    ensures da >= 0.0 && db >= 0.0 ==> dp > 0.0
  {
    ProductSign(x, da);
    ProductSign(z, db);
    ProductSign(s, dp);
  }

  lemma FlatSide(a: Coordinate, t: Coordinate, b: Coordinate)
    ensures a.latitude == t.latitude == b.latitude ==> Side(a, t, b) == 0.0
  {
  }

  /** Strictly inside the corner at vertex k, a point is on the side of k on which its neighbours are. */
  lemma CornerLatitude(vs: seq<Coordinate>, j: nat, p: Coordinate)
    requires StrictlyConvex(vs) && j < |vs| && StrictlyLeftOf(vs, j, p) && StrictlyLeftOf(vs, Succ(j, |vs|), p)
    ensures var n := |vs|;
            var a, t, b := vs[j], vs[Succ(j, n)], vs[Succ(Succ(j, n), n)];
            && (a.latitude <= t.latitude && b.latitude <= t.latitude ==> p.latitude < t.latitude)
            && (a.latitude >= t.latitude && b.latitude >= t.latitude ==> p.latitude > t.latitude)
  {
    var n := |vs|;
    var k := Succ(Succ(j, n), n);
    var a, t, b := vs[j], vs[Succ(j, n)], vs[k];
    assert Side(a, t, b) > 0.0;
    Cone(a, t, b, p);
    FlatSide(a, t, b);
    ConeSign(Side(a, t, b), Side(t, b, p), Side(a, t, p), a.latitude - t.latitude, b.latitude - t.latitude,
             p.latitude - t.latitude);
  }

  function Pred(i: nat, n: nat): nat
    requires i < n
  {
    if i == 0 then n - 1 else i - 1
  }

  /** A point strictly left of every edge is strictly between the extreme latitudes. */
  lemma StrictlyBetweenExtremes(vs: seq<Coordinate>, p: Coordinate) returns (l: nat, h: nat)
    requires StrictlyConvex(vs) && forall i :: 0 <= i < |vs| ==> StrictlyLeftOf(vs, i, p)
    ensures l < |vs| && h < |vs| && vs[l].latitude < p.latitude < vs[h].latitude
  {
    h := Highest(vs);
    CornerLatitude(vs, Pred(h, |vs|), p);
    l := Lowest(vs);
    CornerLatitude(vs, Pred(l, |vs|), p);
  }

  // ----- the theorem -----

  lemma HitsAreCuts(vs: seq<Coordinate>, p: Coordinate, k: int)
    requires vs != []
    ensures HitAt(Ray(p), Ring(vs), k) <==>
              0 <= k && (Up(vs, k, p.latitude) || Down(vs, k, p.latitude))
              && p.longitude < CutOf(vs, k, p.latitude).longitude
  {
    RingPairs(Ray(p), vs, k);
    if 0 <= k < |vs| {
      HitIsWest(p, vs[k], vs[Succ(k, |vs|)]);
    }
  }

  /** Between the cuts of its latitude a point has one hit, on the edge that goes up. */
  lemma BetweenCutsIsInside(vs: seq<Coordinate>, p: Coordinate, u: nat, d: nat)
    requires StrictlyConvex(vs) && Up(vs, u, p.latitude) && Down(vs, d, p.latitude)
    requires CutOf(vs, d, p.latitude).longitude <= p.longitude < CutOf(vs, u, p.latitude).longitude
    ensures Inside(p, vs)
  {
    var y := p.latitude;
    forall k ensures HitAt(Ray(p), Ring(vs), k) <==> k == u {
      HitsAreCuts(vs, p, k);
      if 0 <= k && Up(vs, k, y) { OneUp(vs, k, u, y); }
      if 0 <= k && Down(vs, k, y) { OneDown(vs, k, d, y); }
    }
    OneHitIsOdd(Ray(p), Ring(vs), u);
  }

  /** Left of an edge, in terms of its cut: going up strictly, going down not strictly. */
  lemma LeftIsBetweenCuts(vs: seq<Coordinate>, p: Coordinate, u: nat, d: nat)
    requires Up(vs, u, p.latitude) && Down(vs, d, p.latitude)
    ensures StrictlyLeftOf(vs, u, p) <==> p.longitude < CutOf(vs, u, p.latitude).longitude
    ensures LeftOf(vs, d, p) <==> CutOf(vs, d, p.latitude).longitude <= p.longitude
  {
    WestOfCut(vs[u], vs[Succ(u, |vs|)], p);
    WestOfCut(vs[d], vs[Succ(d, |vs|)], p);
  }

  lemma SomeHit(vs: seq<Coordinate>, p: Coordinate) returns (k: nat)
    requires Inside(p, vs)
    ensures HitAt(Ray(p), Ring(vs), k) && (Up(vs, k, p.latitude) || Down(vs, k, p.latitude))
  {
    if forall i :: !HitAt(Ray(p), Ring(vs), i) {
      NoHitIsEven(Ray(p), Ring(vs));
    }
    var i :| HitAt(Ray(p), Ring(vs), i);
    HitsAreCuts(vs, p, i);
    k := i;
  }

  lemma DownCutIsWest(vs: seq<Coordinate>, u: nat, d: nat, y: real)
    requires StrictlyConvex(vs) && Up(vs, u, y) && Down(vs, d, y)
    ensures CutOf(vs, d, y).longitude <= CutOf(vs, u, y).longitude
  {
    CutIsLeft(vs, u, d, y);
    WestOfCut(vs[u], vs[Succ(u, |vs|)], CutOf(vs, d, y));
  }

  /** With one edge up and one edge down, an inside point lies between their cuts. */
  lemma InsideIsBetweenCuts(vs: seq<Coordinate>, p: Coordinate) returns (u: nat, d: nat)
    requires StrictlyConvex(vs) && Inside(p, vs)
    ensures Up(vs, u, p.latitude) && Down(vs, d, p.latitude)
    ensures CutOf(vs, d, p.latitude).longitude <= p.longitude < CutOf(vs, u, p.latitude).longitude
  {
    var y := p.latitude;
    var k := SomeHit(vs, p);
    if Up(vs, k, y) {
      u, d := UpAndDown(vs, y, k, Succ(k, |vs|));
    } else {
      u, d := UpAndDown(vs, y, Succ(k, |vs|), k);
    }
    DownCutIsWest(vs, u, d, y);
    forall i ensures HitAt(Ray(p), Ring(vs), i) ==> i == u || i == d {
      HitsAreCuts(vs, p, i);
      if 0 <= i && Up(vs, i, y) { OneUp(vs, i, u, y); }
      if 0 <= i && Down(vs, i, y) { OneDown(vs, i, d, y); }
    }
    HitsAreCuts(vs, p, u);
    HitsAreCuts(vs, p, d);
    if HitAt(Ray(p), Ring(vs), u) && HitAt(Ray(p), Ring(vs), d) {
      TwoHitsAreEven(Ray(p), Ring(vs), if u < d then u else d, if u < d then d else u);
    }
  }

  lemma BetweenOnLatitude(a: Coordinate, p: Coordinate, b: Coordinate) returns (t: real)
    requires a.latitude == p.latitude == b.latitude && a.longitude <= p.longitude < b.longitude
    ensures OnSegment(a, p, b, t)
  {
    var n, d := p.longitude - a.longitude, b.longitude - a.longitude;
    t := n / d;
    ProperFraction(n, d);
    RatioTimes(n, d);
  }

  lemma InsideIsLeft(vs: seq<Coordinate>, p: Coordinate, e: nat)
    requires StrictlyConvex(vs) && Inside(p, vs) && e < |vs|
    ensures LeftOf(vs, e, p)
  {
    var y := p.latitude;
    var u, d := InsideIsBetweenCuts(vs, p);
    CutIsLeft(vs, e, u, y);
    CutIsLeft(vs, e, d, y);
    var t := BetweenOnLatitude(CutOf(vs, d, y), p, CutOf(vs, u, y));
    BetweenIsLeft(vs, e, CutOf(vs, d, y), p, CutOf(vs, u, y), t);
  }

  /** p is strictly left of the edge up across its latitude, and left of the edge down or on it. */
  ghost predicate BetweenUpAndDown(vs: seq<Coordinate>, p: Coordinate) {
    exists u: nat, d: nat ::
      Up(vs, u, p.latitude) && Down(vs, d, p.latitude) && StrictlyLeftOf(vs, u, p) && LeftOf(vs, d, p)
  }

  /**
   On every strictly convex polygon, walked counter-clockwise, the answer is exactly
   this, for points on its boundary too: an edge that goes down belongs to the polygon,
   one that goes up does not.
   */
  lemma ConvexInsideIff(vs: seq<Coordinate>, p: Coordinate)
    requires StrictlyConvex(vs)
    ensures Inside(p, vs) <==> BetweenUpAndDown(vs, p)
  {
    if Inside(p, vs) {
      var u, d := InsideIsBetweenCuts(vs, p);
      LeftIsBetweenCuts(vs, p, u, d);
    }
    if BetweenUpAndDown(vs, p) {
      var u: nat, d: nat :|
        Up(vs, u, p.latitude) && Down(vs, d, p.latitude) && StrictlyLeftOf(vs, u, p) && LeftOf(vs, d, p);
      LeftIsBetweenCuts(vs, p, u, d);
      BetweenCutsIsInside(vs, p, u, d);
    }
  }

  /** So a point strictly left of all edges is inside, and an inside point is left of or on the line of every edge. */
  lemma ConvexInside(vs: seq<Coordinate>, p: Coordinate)
    requires StrictlyConvex(vs)
    ensures (forall i :: 0 <= i < |vs| ==> StrictlyLeftOf(vs, i, p)) ==> Inside(p, vs)
    ensures Inside(p, vs) ==> forall i :: 0 <= i < |vs| ==> LeftOf(vs, i, p)
  {
    if forall i :: 0 <= i < |vs| ==> StrictlyLeftOf(vs, i, p) {
      var l, h := StrictlyBetweenExtremes(vs, p);
      var u, d := UpAndDown(vs, p.latitude, l, h);
      assert StrictlyLeftOf(vs, u, p) && StrictlyLeftOf(vs, d, p);
      assert LeftOf(vs, d, p);
      assert BetweenUpAndDown(vs, p);
      ConvexInsideIff(vs, p);
    }
    if Inside(p, vs) {
      forall i | 0 <= i < |vs| ensures LeftOf(vs, i, p) {
        InsideIsLeft(vs, p, i);
      }
    }
  }
}
