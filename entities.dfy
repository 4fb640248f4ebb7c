/**
 * The value types of the profile builder: buildings, walls, ground effects,
 * terrain triangles and the cut points of a profile, with the ordering
 * CutPoint.compareTo defines on cut points.
 */
module Entities {
  import opened Geometry

  /** What a cut point lies on, and what a wall was derived from. */
  datatype IntersectionType = BuildingCut | TopographyCut | GroundEffectCut | SourceCut | ReceiverCut

  /**
   * A point of a profile: its coordinate, what it lies on, the id of the
   * crossed feature (-1 for source and receiver), the id of an enclosing
   * building (-1: none) and its ground coefficient (None where the source
   * holds NaN).
   */
  datatype CutPoint = CutPoint(coord: Coord, kind: IntersectionType, id: int, buildingId: int, groundCoef: Option<real>)

  /** The three-argument CutPoint constructor: no enclosing building, no coefficient. */
  function NewCutPoint(c: Coord, kind: IntersectionType, id: int): CutPoint {
    CutPoint(c, kind, id, -1, None)
  }

  /**
   * A wall: a segment tagged with what it was derived from and the index of
   * that building, triangle or ground effect.
   */
  datatype Wall = Wall(line: Segment, originId: int, kind: IntersectionType)

  /**
   * A building: its footprint coordinates, its height and its absorption
   * coefficients. The primary key passed to the source's constructor is
   * dropped there (the field keeps -1), so it is not part of the value.
   */
  datatype Building = Building(poly: seq<Coord>, height: real, alphas: seq<real>)

  /** A ground-effect area and its ground coefficient. */
  datatype GroundEffect = GroundEffect(geom: Shape, coef: real)

  /** A terrain triangle: three indexes into the vertex list. */
  datatype Triangle = Triangle(a: int, b: int, c: int)

  predicate TriangleIn(t: Triangle, n: int) {
    0 <= t.a < n && 0 <= t.b < n && 0 <= t.c < n
  }

  /**
   * CutPoint.compareTo: -1 when p is left of or below q in either
   * coordinate, 0 on the same planar position, 1 otherwise.
   */
  function Compare(p: CutPoint, q: CutPoint): (r: int)
    ensures -1 <= r <= 1
    ensures r == 0 <==> SameXY(p.coord, q.coord)
    ensures r > 0 <==> q.coord.x <= p.coord.x && q.coord.y <= p.coord.y && !SameXY(p.coord, q.coord)
  {
    if p.coord.x < q.coord.x || p.coord.y < q.coord.y then -1
    else if p.coord.x == q.coord.x && p.coord.y == q.coord.y then 0
    else 1
  }

  /** A point ranked after another ranks that one before it. */
  lemma CompareFlip(p: CutPoint, q: CutPoint)
    ensures Compare(p, q) > 0 ==> Compare(q, p) < 0
    ensures Compare(p, q) >= 0 ==> Compare(q, p) <= 0
  {
  }

  /**
   * The comparator is not antisymmetric: it ranks each of two points before
   * the other when one is further right and the other further up.
   */
  lemma CompareNotAntisymmetric()
    ensures exists p, q :: Compare(p, q) < 0 && Compare(q, p) < 0
  {
    var p := NewCutPoint(Coord(0.0, 1.0, None), TopographyCut, 0);
    var q := NewCutPoint(Coord(1.0, 0.0, None), TopographyCut, 0);
    assert Compare(p, q) < 0 && Compare(q, p) < 0;
  }

  /** The comparator is not transitive either: it can rank three points in a cycle. */
  lemma CompareNotTransitive()
    ensures exists p, q, s :: Compare(p, q) < 0 && Compare(q, s) < 0 && Compare(p, s) > 0
  {
    var p := NewCutPoint(Coord(0.0, 1.0, None), TopographyCut, 0);
    var q := NewCutPoint(Coord(1.0, 0.0, None), TopographyCut, 0);
    var s := NewCutPoint(Coord(0.0, 0.5, None), TopographyCut, 0);
    assert Compare(p, q) < 0 && Compare(q, s) < 0 && Compare(p, s) > 0;
  }
}
