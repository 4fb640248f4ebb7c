/**
 * Planar geometry as the profile builder sees it: coordinates, segments,
 * bounding envelopes and the shapes of buildings, ground effects and
 * sources. The numerical primitives of the geometry library (segment
 * intersection, interpolation, point-in-polygon) are not modelled: they are
 * the fields of a GeometryOps value that the caller passes in.
 */
module Geometry {

  datatype Option<+T> = None | Some(value: T)

  /** A coordinate. `z` is None where the source holds NaN (no elevation). */
  datatype Coord = Coord(x: real, y: real, z: Option<real>)

  /** Coordinate.equals: two coordinates are equal when x and y are; z is ignored. */
  predicate SameXY(a: Coord, b: Coord) {
    a.x == b.x && a.y == b.y
  }

  datatype Segment = Segment(p0: Coord, p1: Coord)

  /** A bounding box. Empty is the null envelope, which holds no position. */
  datatype Envelope = Empty | Box(minX: real, maxX: real, minY: real, maxY: real)

  function Min(a: real, b: real): real { if a <= b then a else b }

  function Max(a: real, b: real): real { if a <= b then b else a }

  predicate WellFormed(e: Envelope) {
    e.Box? ==> e.minX <= e.maxX && e.minY <= e.maxY
  }

  /** Every position of `inner` lies in `outer`. */
  predicate Covers(outer: Envelope, inner: Envelope) {
    inner.Empty? ||
    (outer.Box? && outer.minX <= inner.minX && inner.maxX <= outer.maxX
                && outer.minY <= inner.minY && inner.maxY <= outer.maxY)
  }

  /** new Envelope(Coordinate): the box of a single position. */
  function PointEnvelope(c: Coord): Envelope {
    Box(c.x, c.x, c.y, c.y)
  }

  /**
   * Envelope.expandToInclude(Envelope): the box covering both; expanding
   * the null envelope yields the other one.
   */
  function ExpandToInclude(e: Envelope, f: Envelope): (r: Envelope)
    ensures Covers(r, e) && Covers(r, f)
    ensures r.Empty? <==> e.Empty? && f.Empty?
    ensures WellFormed(e) && WellFormed(f) ==> WellFormed(r)
  {
    match (e, f)
    case (Empty, _) => f
    case (_, Empty) => e
    case (Box(x0, x1, y0, y1), Box(u0, u1, v0, v1)) =>
      Box(Min(x0, u0), Max(x1, u1), Min(y0, v0), Max(y1, v1))
  }

  /** The expansion is the least box covering both envelopes. */
  lemma ExpandIsLeast(e: Envelope, f: Envelope, g: Envelope)
    requires Covers(g, e) && Covers(g, f)
    ensures Covers(g, ExpandToInclude(e, f))
  {
  }

  /** Geometry.getEnvelopeInternal() over the coordinates of a geometry. */
  function EnvelopeOf(cs: seq<Coord>): (r: Envelope)
    ensures WellFormed(r)
    ensures r.Empty? <==> cs == []
  {
    if cs == [] then Empty
    else ExpandToInclude(EnvelopeOf(cs[..|cs| - 1]), PointEnvelope(cs[|cs| - 1]))
  }

  /** The envelope of some coordinates covers each of them. */
  lemma {:induction false} EnvelopeOfCovers(cs: seq<Coord>)
    ensures forall i :: 0 <= i < |cs| ==> Covers(EnvelopeOf(cs), PointEnvelope(cs[i]))
  {
    if cs != [] {
      var p := cs[..|cs| - 1];
      EnvelopeOfCovers(p);
      forall i | 0 <= i < |cs|
        ensures Covers(EnvelopeOf(cs), PointEnvelope(cs[i]))
      {
        if i < |p| {
          assert cs[i] == p[i];
        }
      }
    }
  }

  /** The envelope of a segment's geometry: the box of its two end points. */
  function SegmentEnvelope(s: Segment): (r: Envelope)
    ensures r.Box? && WellFormed(r)
    ensures Covers(r, PointEnvelope(s.p0)) && Covers(r, PointEnvelope(s.p1))
  {
    Box(Min(s.p0.x, s.p1.x), Max(s.p0.x, s.p1.x), Min(s.p0.y, s.p1.y), Max(s.p0.y, s.p1.y))
  }

  /** The envelope of a segment is the envelope of its two ends. */
  lemma SegmentEnvelopeOfEnds(s: Segment)
    ensures SegmentEnvelope(s) == EnvelopeOf([s.p0, s.p1])
  {
    assert [s.p0, s.p1][..1] == [s.p0];
    assert [s.p0][..0] == [];
  }

  /** Envelope.intersects: the boxes share a position; the null envelope meets nothing. */
  predicate Intersects(a: Envelope, b: Envelope) {
    a.Box? && b.Box? &&
    a.minX <= b.maxX && b.minX <= a.maxX && a.minY <= b.maxY && b.minY <= a.maxY
  }

  /**
   * A geometry, by the coordinates getCoordinates() lists: for a polygon
   * its shell ring followed by its hole rings, for a multi-polygon the
   * lists of its polygons, for any other geometry its own list.
   */
  datatype Shape =
    | Polygon(coords: seq<Coord>)
    | MultiPolygon(parts: seq<seq<Coord>>)
    | OtherShape(coords: seq<Coord>)

  function Flatten(ps: seq<seq<Coord>>): seq<Coord> {
    if ps == [] then [] else Flatten(ps[..|ps| - 1]) + ps[|ps| - 1]
  }

  /** Geometry.getCoordinates() */
  function Coordinates(g: Shape): seq<Coord> {
    match g
    case Polygon(cs) => cs
    case MultiPolygon(ps) => Flatten(ps)
    case OtherShape(cs) => cs
  }

  function ShapeEnvelope(g: Shape): Envelope {
    EnvelopeOf(Coordinates(g))
  }

  /**
   * The numerical primitives of the geometry library, left uninterpreted:
   * LineSegment.getLength, LineSegment.pointAlong, LineSegment.intersection,
   * Vertex.interpolateZ along a segment, LineSegment.segmentFraction,
   * Geometry.contains and the builder's terrain-height lookup getTopoZ.
   * The two height primitives may give NaN (a corner with no height, a
   * segment of zero length), so they return an optional height.
   */
  datatype GeometryOps = GeometryOps(
    length: Segment -> real,
    pointAlong: (Segment, real) -> Coord,
    intersection: (Segment, Segment) -> Option<Coord>,
    interpolateZ: (Coord, Coord, Coord) -> Option<real>,
    segmentFraction: (Segment, Coord) -> real,
    contains: (Shape, Coord) -> bool,
    topoZ: Coord -> Option<real>)
}
