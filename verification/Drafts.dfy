/**
 Editing a polygon on the route grouping map, printing it as a GeoJSON Polygon
 (section 3.1.6 of RFC 7946) and reading it back for editing.
 */
module Drafts {
  import opened Json
  import opened Polygon
  import opened Rings
  import opened Wrappers

  datatype PolygonDraft = PolygonDraft(closed: bool, vertices: seq<Coordinate>)

  datatype Edit =
    | Append(vertex: Coordinate)
    | Insert(index: int, vertex: Coordinate)
    | Move(index: int, vertex: Coordinate)
    | Close
    | RemoveLast

  function ClampIndex(index: int, length: nat): (k: nat)
    ensures k <= length
  {
    if index < 0 then 0 else if index > length then length else index
  }

  function Apply(draft: PolygonDraft, edit: Edit): PolygonDraft {
    var vs := draft.vertices;
    match edit
    case Append(vertex) =>
      if draft.closed then draft else draft.(vertices := vs + [vertex])
    case Insert(index, vertex) =>
      if !draft.closed || |vs| < 3 then draft else
      var k := ClampIndex(index, |vs|);
      draft.(vertices := vs[..k] + [vertex] + vs[k..])
    case Move(index, vertex) =>
      if index < 0 || index >= |vs| then draft else draft.(vertices := vs[index := vertex])
    case Close =>
      draft.(closed := |vs| >= 3)
    case RemoveLast =>
      if vs == [] then draft else PolygonDraft(false, vs[..|vs| - 1])
  }

  const EMPTY_DRAFT := PolygonDraft(false, [])

  /** The draft after a run of edits from the empty one. */
  function After(edits: seq<Edit>): PolygonDraft {
    if edits == [] then EMPTY_DRAFT else Apply(After(edits[..|edits| - 1]), edits[|edits| - 1])
  }

  /** In every draft reachable from the empty one, closed means at least three vertices. */
  lemma {:induction false} ReachableClosedDrafts(edits: seq<Edit>)
    ensures After(edits).closed ==> |After(edits).vertices| >= 3
  {
    if edits == [] {
    } else {
      ReachableClosedDrafts(edits[..|edits| - 1]);
    }
  }

  /** An inserted vertex stands at its clamped index between the others; an open draft takes none. */
  lemma InsertedVertex(draft: PolygonDraft, index: int, v: Coordinate)
    ensures if draft.closed && |draft.vertices| >= 3 then
              var vs, k := Apply(draft, Insert(index, v)).vertices, ClampIndex(index, |draft.vertices|);
              |vs| == |draft.vertices| + 1 && vs[k] == v && vs[..k] + vs[k + 1..] == draft.vertices
            else Apply(draft, Insert(index, v)) == draft
  {
  }

  /**
   Removing the last vertex undoes appending it and reopens a draft, and moving a vertex
   back undoes moving it.
   */
  lemma EditsAreUndone(draft: PolygonDraft, index: int, v: Coordinate)
    ensures !draft.closed ==> Apply(Apply(draft, Append(v)), RemoveLast) == draft
    ensures draft.closed ==> Apply(draft, Append(v)) == draft
    ensures draft.vertices != [] ==>
              var shorter := Apply(draft, RemoveLast);
              !shorter.closed && shorter.vertices + [draft.vertices[|draft.vertices| - 1]] == draft.vertices
    ensures if 0 <= index < |draft.vertices| then
              var moved := Apply(draft, Move(index, v));
              moved.vertices[index] == v && Apply(moved, Move(index, draft.vertices[index])) == draft
            else Apply(draft, Move(index, v)) == draft
  {
    var vs := draft.vertices;
    assert (vs + [v])[..|vs|] == vs;
    if 0 <= index < |vs| {
      assert vs[index := v][index := vs[index]] == vs;
    }
  }

  /** The index is moved to the nearer end if it is outside, and closing needs three vertices and changes none. */
  lemma ClampingAndClosing(draft: PolygonDraft, index: int, length: nat)
    ensures 0 <= index <= length ==> ClampIndex(index, length) == index
    ensures index < 0 ==> ClampIndex(index, length) == 0
    ensures index > length ==> ClampIndex(index, length) == length
    ensures Apply(draft, Close).vertices == draft.vertices
    ensures Apply(draft, Close).closed <==> |draft.vertices| >= 3
  {
  }

  /** Inserting a vertex of a closed draft on the edge where it goes selects the same points. */
  lemma InsertOnEdgeSelectsSamePoints(p: Coordinate, draft: PolygonDraft, index: int, v: Coordinate, t: real)
    requires draft.closed && |draft.vertices| >= 3
    requires var vs, k := draft.vertices, ClampIndex(index, |draft.vertices|);
             OnSegment(vs[if k == 0 then |vs| - 1 else k - 1], v, vs[if k == |vs| then 0 else k], t)
    ensures Inside(p, Apply(draft, Insert(index, v)).vertices) == Inside(p, draft.vertices)
  {
    InsideUnchangedByVertexOnEdge(p, draft.vertices, ClampIndex(index, |draft.vertices|), v, t);
  }

  // ----- printing -----

  function Position(v: Coordinate): Json {
    Arr([Num(v.longitude), Num(v.latitude)])
  }

  function Positions(vs: seq<Coordinate>): (r: seq<Json>)
    ensures |r| == |vs|
  {
    seq(|vs|, i requires 0 <= i < |vs| => Position(vs[i]))
  }

  function Geometry(ring: seq<Json>): Json {
    Obj(map["type" := Str("Polygon"), "coordinates" := Arr([Arr(ring)])])
  }

  /** The vertex list whose positions are printed: the first one again unless it is already last. */
  function PrintedRing(vs: seq<Coordinate>): seq<Coordinate>
    requires vs != []
  {
    if vs[0] != vs[|vs| - 1] then Ring(vs) else vs
  }

  /** polygonDraftToGeoJson: pushes the first position again when the ring is not yet closed. */
  method PolygonDraftToGeoJson(draft: PolygonDraft) returns (geometry: Option<Json>)
    ensures geometry == if draft.closed && |draft.vertices| >= 3
                        then Some(Geometry(Positions(PrintedRing(draft.vertices)))) else None
  {
    if !draft.closed || |draft.vertices| < 3 {
      return None;
    }
    var vs := draft.vertices;
    var ring := Positions(vs);
    var first, last := vs[0], vs[|vs| - 1];
    if first.longitude != last.longitude || first.latitude != last.latitude {
      ring := ring + [Position(first)];
      assert ring == Positions(Ring(vs));
    }
    geometry := Some(Geometry(ring));
  }

  // ----- reading -----

  /** Number(value), with `None` for a value that is not a finite number. */
  type Coercion = Json -> Option<real>

  function ReadPosition(entry: Json, number: Coercion): Option<Coordinate> {
    if !entry.Arr? || |entry.items| < 2 then None else
    match (number(entry.items[0]), number(entry.items[1]))
    case (Some(longitude), Some(latitude)) => Some(Coordinate(latitude, longitude))
    case _ => None
  }

  function ReadRing(ring: seq<Json>, number: Coercion): seq<Coordinate> {
    if ring == [] then [] else
    var rest := ReadRing(ring[1..], number);
    match ReadPosition(ring[0], number)
    case Some(v) => [v] + rest
    case None => rest
  }

  function ReadPolygonVertices(geometry: Json, number: Coercion): seq<Coordinate> {
    if !geometry.Obj? then [] else
    var fields := geometry.fields;
    if "type" !in fields || fields["type"] != Str("Polygon") then [] else
    if "coordinates" !in fields || !fields["coordinates"].Arr? then [] else
    var rings := fields["coordinates"].items;
    if rings == [] || !rings[0].Arr? then [] else ReadRing(rings[0].items, number)
  }

  function ReadEditablePolygonVertices(geometry: Json, number: Coercion): seq<Coordinate> {
    var vs := ReadPolygonVertices(geometry, number);
    if vs != [] && vs[0] == vs[|vs| - 1] then vs[..|vs| - 1] else vs
  }

  ghost predicate ReadsNumbers(number: Coercion) {
    forall x: real :: number(Num(x)) == Some(x)
  }

  /** A position of RFC 7946 gives the longitude first. */
  lemma PositionIsLongitudeFirst(v: Coordinate)
    ensures Position(v) == Arr([Num(v.longitude), Num(v.latitude)])
  {
  }

  /** An entry is read exactly if its first two items are numbers: longitude, then latitude. */
  lemma ReadPositionIff(entry: Json, number: Coercion, v: Coordinate)
    ensures ReadPosition(entry, number) == Some(v) <==>
              && entry.Arr? && |entry.items| >= 2
              && number(entry.items[0]) == Some(v.longitude) && number(entry.items[1]) == Some(v.latitude)
  {
  }

  /** Entries that cannot be read are skipped, the others kept in order. */
  lemma {:induction false} ReadRingAppend(a: seq<Json>, b: seq<Json>, number: Coercion)
    ensures ReadRing(a + b, number) == ReadRing(a, number) + ReadRing(b, number)
    ensures |a| == 1 ==>
              var read := ReadPosition(a[0], number);
              ReadRing(a, number) == if read.Some? then [read.value] else []
  {
    if a == [] {
      assert a + b == b;
    } else {
      assert (a + b)[0] == a[0] && (a + b)[1..] == a[1..] + b;
      ReadRingAppend(a[1..], b, number);
    }
  }

  lemma {:induction false} ReadBackPositions(vs: seq<Coordinate>, number: Coercion)
    requires ReadsNumbers(number)
    ensures ReadRing(Positions(vs), number) == vs
  {
    if vs == [] {
    } else {
      ReadBackPositions(vs[1..], number);
      assert Positions(vs)[1..] == Positions(vs[1..]);
    }
  }

  lemma ReadBack(vs: seq<Coordinate>, number: Coercion)
    requires ReadsNumbers(number)
    ensures ReadPolygonVertices(Geometry(Positions(vs)), number) == vs
  {
    ReadBackPositions(vs, number);
  }

  /** Only the first ring of a Polygon with coordinates is read. */
  lemma OnlyPolygonsAreRead(geometry: Json, number: Coercion)
    ensures ReadPolygonVertices(geometry, number) != [] ==>
              && geometry.Obj? && "type" in geometry.fields && geometry.fields["type"] == Str("Polygon")
              && "coordinates" in geometry.fields && geometry.fields["coordinates"].Arr?
              && geometry.fields["coordinates"].items != [] && geometry.fields["coordinates"].items[0].Arr?
              && ReadPolygonVertices(geometry, number)
                 == ReadRing(geometry.fields["coordinates"].items[0].items, number)
  {
  }

  /** A linear ring in the sense of RFC 7946: closed, with four or more positions. */
  predicate LinearRing(ring: seq<Json>) {
    |ring| >= 4 && ring[0] == ring[|ring| - 1]
  }

  /**
   Printing and reading back is the identity exactly when the first and last vertex
   differ; the printed ring is a linear ring exactly when they differ or there are four.
   */
  lemma PrintThenRead(vs: seq<Coordinate>, number: Coercion)
    requires |vs| >= 3 && ReadsNumbers(number)
    ensures LinearRing(Positions(PrintedRing(vs))) <==> vs[0] != vs[|vs| - 1] || |vs| >= 4
    ensures ReadEditablePolygonVertices(Geometry(Positions(PrintedRing(vs))), number) == vs
            <==> vs[0] != vs[|vs| - 1]
  {
    ReadBack(PrintedRing(vs), number);
    if vs[0] != vs[|vs| - 1] {
      assert Ring(vs)[..|vs|] == vs;
    }
  }

  /** Whatever was printed, what is read back for editing selects the same points. */
  lemma PrintThenReadSelectsSamePoints(p: Coordinate, vs: seq<Coordinate>, number: Coercion)
    requires |vs| >= 3 && ReadsNumbers(number)
    ensures Inside(p, ReadEditablePolygonVertices(Geometry(Positions(PrintedRing(vs))), number)) == Inside(p, vs)
  {
    PrintThenRead(vs, number);
    ReadBack(PrintedRing(vs), number);
    if vs[0] == vs[|vs| - 1] {
      var open := vs[..|vs| - 1];
      assert Ring(open) == vs;
      InsideUnchangedByClosing(p, open);
    }
  }

  /** A three-vertex draft that repeats its first vertex closes but prints no linear ring. */
  lemma DegenerateDraftPrintsShortRing(a: Coordinate, b: Coordinate)
    ensures var draft := After([Append(a), Append(b), Append(a), Close]);
            && draft == PolygonDraft(true, [a, b, a])
            && !LinearRing(Positions(PrintedRing(draft.vertices)))
  {
    var edits := [Append(a), Append(b), Append(a), Close];
    assert edits[..1] == [Append(a)] && edits[..2][..1] == edits[..1];
    assert edits[..3][..2] == edits[..2];
    assert After(edits[..1]) == PolygonDraft(false, [a]);
    assert After(edits[..2]) == PolygonDraft(false, [a, b]);
    assert After(edits[..3]) == PolygonDraft(false, [a, b, a]);
  }
}
