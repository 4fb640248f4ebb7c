/**
 * The profile builder: the feeding methods that collect buildings, terrain
 * and ground-effect areas until feeding is finished, the indexing
 * finishFeeding performs (building walls, the terrain mesh and its
 * triangle tree, ground-effect walls), and the profile query over the
 * indexed data.
 */
module Builder {
  import opened Geometry
  import opened Entities
  import opened SpatialIndex
  import opened Lists
  import opened Split
  import opened Profile
  import opened GroundWalk
  import opened ProfileQuery
  import opened ProfileSpec

  /** The node capacity of every tree unless the caller sets one. */
  const TreeNodeCapacity: int := 20

  /** The default length of the pieces a query splits its line into. */
  const DefaultMaxLineLength: real := 15.0

  /**
   * The outcome of meshing the terrain with the Delaunay layer: an error
   * before the triangles could be fetched, an error fetching the vertices
   * after the triangles were fetched, or the triangles and their vertices.
   */
  datatype Delaunay =
    | Failed
    | VerticesFailed(triangles: seq<Triangle>)
    | Meshed(triangles: seq<Triangle>, vertices: seq<Coord>)

  /** A mesh whose triangles name its own vertices. */
  predicate MeshOk(d: Delaunay) {
    d.Meshed? ==> MeshBelow(d.triangles, |d.vertices|)
  }

  // ---------------------------------------------------------------------
  // The global envelope
  // ---------------------------------------------------------------------

  /** The envelope covers every building, terrain point, terrain line and ground area fed so far. */
  predicate CoversAll(e: Envelope, bs: seq<Building>, pts: seq<Coord>, lines: seq<seq<Coord>>, ges: seq<GroundEffect>) {
    && (forall b :: b in bs ==> Covers(e, EnvelopeOf(b.poly)))
    && (forall p :: p in pts ==> Covers(e, PointEnvelope(p)))
    && (forall l :: l in lines ==> Covers(e, EnvelopeOf(l)))
    && (forall g :: g in ges ==> Covers(e, ShapeEnvelope(g.geom)))
  }

  /** Growing the envelope keeps everything it covered covered. */
  lemma CoversAllWiden(e: Envelope, f: Envelope, bs: seq<Building>, pts: seq<Coord>, lines: seq<seq<Coord>>, ges: seq<GroundEffect>)
    requires CoversAll(e, bs, pts, lines, ges)
    ensures CoversAll(ExpandToInclude(e, f), bs, pts, lines, ges)
  {
    var g := ExpandToInclude(e, f);
    forall x: Envelope | Covers(e, x)
      ensures Covers(g, x)
    {
    }
  }

  // ---------------------------------------------------------------------
  // Walls and tree entries
  // ---------------------------------------------------------------------

  /** The first end of a building wall: the footprint coordinate, raised to the building height when it has no z. */
  function WallFoot(c: Coord, height: real): Coord {
    Coord(c.x, c.y, if c.z.Some? then c.z else Some(height))
  }

  /** The second end of a building wall: the footprint coordinate at the building height. */
  function WallTop(c: Coord, height: real): Coord {
    Coord(c.x, c.y, Some(height))
  }

  /** The number of sides of a ring or footprint: one per pair of consecutive coordinates. */
  function EdgeCount(cs: seq<Coord>): nat {
    if |cs| < 2 then 0 else |cs| - 1
  }

  /** Side k of the footprint of building j, from coordinate k to coordinate k + 1. */
  function BuildingSide(cs: seq<Coord>, height: real, j: int, k: int): Wall
    requires 0 <= k < EdgeCount(cs)
  {
    Wall(Segment(WallFoot(cs[k], height), WallTop(cs[k + 1], height)), j, BuildingCut)
  }

  /** The first n sides of the footprint of building j, in order. */
  function BuildingSides(cs: seq<Coord>, height: real, j: int, n: nat): (r: seq<Wall>)
    requires n <= EdgeCount(cs)
    ensures |r| == n
  {
    if n == 0 then [] else BuildingSides(cs, height, j, n - 1) + [BuildingSide(cs, height, j, n - 1)]
  }

  /** The walls of building number j: one per pair of consecutive footprint coordinates. */
  function BuildingWallsOf(b: Building, j: int): seq<Wall> {
    BuildingSides(b.poly, b.height, j, EdgeCount(b.poly))
  }

  /** The walls of all buildings, building after building. */
  function BuildingWalls(bs: seq<Building>): seq<Wall> {
    if bs == [] then []
    else BuildingWalls(bs[..|bs| - 1]) + BuildingWallsOf(bs[|bs| - 1], |bs| - 1)
  }

  /** finishFeeding builds the wall tree only when the first building has at least three coordinates. */
  predicate BuildsWallTree(bs: seq<Building>) {
    |bs| >= 1 && |bs[0].poly| >= 3
  }

  /** Side k of a ground ring, from coordinate k to coordinate k + 1. */
  function RingSide(cs: seq<Coord>, id: int, k: int): Wall
    requires 0 <= k < EdgeCount(cs)
  {
    Wall(Segment(cs[k], cs[k + 1]), id, GroundEffectCut)
  }

  /** The first n sides of a ground ring, in order. */
  function RingSides(cs: seq<Coord>, id: int, n: nat): (r: seq<Wall>)
    requires n <= EdgeCount(cs)
    ensures |r| == n
  {
    if n == 0 then [] else RingSides(cs, id, n - 1) + [RingSide(cs, id, n - 1)]
  }

  /** The walls along one ring: one per pair of consecutive coordinates. */
  function RingWalls(cs: seq<Coord>, id: int): seq<Wall> {
    RingSides(cs, id, EdgeCount(cs))
  }

  /** The polygons of a ground area: a polygon, the parts of a multi-polygon, none for any other shape. */
  function Polygons(g: Shape): seq<seq<Coord>> {
    match g
    case Polygon(cs) => [cs]
    case MultiPolygon(ps) => ps
    case OtherShape(_) => []
  }

  function RingsWalls(ps: seq<seq<Coord>>, id: int): seq<Wall> {
    if ps == [] then [] else RingsWalls(ps[..|ps| - 1], id) + RingWalls(ps[|ps| - 1], id)
  }

  /** The walls of all ground areas, area after area. */
  function GroundWalls(ges: seq<GroundEffect>): seq<Wall> {
    if ges == [] then []
    else GroundWalls(ges[..|ges| - 1]) + RingsWalls(Polygons(ges[|ges| - 1].geom), |ges| - 1)
  }

  /** No polygon of any ground area has an edge. */
  predicate NoGroundRings(ges: seq<GroundEffect>) {
    forall g, cs :: g in ges && cs in Polygons(g.geom) ==> |cs| < 2
  }

  /** The wall-tree entries of walls appended at positions base, base + 1, ... */
  function EntriesFor(ws: seq<Wall>, base: int): (r: seq<Entry>)
    ensures |r| == |ws|
  {
    if ws == [] then []
    else EntriesFor(ws[..|ws| - 1], base) + [Entry(SegmentEnvelope(ws[|ws| - 1].line), base + |ws| - 1)]
  }

  /** Every entry of the wall tree names a wall and holds that wall's envelope. */
  predicate WallTree(es: seq<Entry>, ws: seq<Wall>) {
    forall e :: e in es ==> 0 <= e.item < |ws| && e.env == SegmentEnvelope(ws[e.item].line)
  }

  /** Insert entries into the tree when there is one (there is whenever entries are inserted). */
  function Grow(t: Option<seq<Entry>>, es: seq<Entry>): Option<seq<Entry>> {
    match t
    case None => None
    case Some(s) => Some(s + es)
  }

  /** The source tree: the envelope of each source, by position. */
  function SourceEntries(ss: seq<Shape>): seq<Entry> {
    if ss == [] then [] else SourceEntries(ss[..|ss| - 1]) + [Entry(ShapeEnvelope(ss[|ss| - 1]), |ss| - 1)]
  }

  predicate SourceTree(es: seq<Entry>, ss: seq<Shape>) {
    forall e :: e in es ==> 0 <= e.item < |ss| && e.env == ShapeEnvelope(ss[e.item])
  }

  /** The envelope of the line string through the three corners of a triangle. */
  function TriangleEnvelope(vs: seq<Coord>, t: Triangle): Envelope
    requires TriangleIn(t, |vs|)
  {
    EnvelopeOf([vs[t.a], vs[t.b], vs[t.c]])
  }

  /** The triangle tree: the envelope of each triangle, by position. */
  function TriangleEntries(ts: seq<Triangle>, vs: seq<Coord>): (r: seq<Entry>)
    requires MeshBelow(ts, |vs|)
    ensures |r| == |ts|
  {
    if ts == [] then []
    else
      assert ts[|ts| - 1] in ts;
      assert forall t :: t in ts[..|ts| - 1] ==> t in ts;
      TriangleEntries(ts[..|ts| - 1], vs) + [Entry(TriangleEnvelope(vs, ts[|ts| - 1]), |ts| - 1)]
  }

  /** The three sides AB, BC and CA of triangle number i. */
  function TriangleWalls(vs: seq<Coord>, t: Triangle, i: int): seq<Wall>
    requires TriangleIn(t, |vs|)
  {
    [Wall(Segment(vs[t.a], vs[t.b]), i, TopographyCut),
     Wall(Segment(vs[t.b], vs[t.c]), i, TopographyCut),
     Wall(Segment(vs[t.c], vs[t.a]), i, TopographyCut)]
  }

  function TopoWalls(ts: seq<Triangle>, vs: seq<Coord>): seq<Wall>
    requires MeshBelow(ts, |vs|)
  {
    if ts == [] then []
    else
      assert ts[|ts| - 1] in ts;
      assert forall t :: t in ts[..|ts| - 1] ==> t in ts;
      TopoWalls(ts[..|ts| - 1], vs) + TriangleWalls(vs, ts[|ts| - 1], |ts| - 1)
  }

  /**
   * The loop over the footprint of building j: one wall per pair of
   * consecutive coordinates, and its wall-tree entry at position base + i.
   */
  method BuildingSideWalls(b: Building, j: int, base: int) returns (ws: seq<Wall>, es: seq<Entry>)
    ensures ws == BuildingWallsOf(b, j)
    ensures es == EntriesFor(ws, base)
  {
    var cs := b.poly;
    ws, es := [], [];
    var i := 0;
    while i < |cs| - 1
      invariant 0 <= i <= EdgeCount(cs)
      invariant ws == BuildingSides(cs, b.height, j, i)
      invariant es == EntriesFor(ws, base)
    {
      var w := Wall(Segment(Coord(cs[i].x, cs[i].y, if cs[i].z.Some? then cs[i].z else Some(b.height)),
                            Coord(cs[i + 1].x, cs[i + 1].y, Some(b.height))), j, BuildingCut);
      EntriesForSnoc(ws, w, base);
      ws, es := ws + [w], es + [Entry(SegmentEnvelope(w.line), base + i)];
      i := i + 1;
    }
  }

  /** The loop over the buildings: the walls of each, in order, with their entries from position base on. */
  method AllBuildingWalls(bs: seq<Building>, base: int) returns (ws: seq<Wall>, es: seq<Entry>)
    ensures ws == BuildingWalls(bs)
    ensures es == EntriesFor(ws, base)
  {
    ws, es := [], [];
    assert bs[..0] == [];
    for j := 0 to |bs|
      invariant ws == BuildingWalls(bs[..j])
      invariant es == EntriesFor(ws, base)
    {
      var more, moreEntries := BuildingSideWalls(bs[j], j, base + |ws|);
      BuildingWallsSnoc(bs, j);
      EntriesAppended(ws, more, es, moreEntries, base);
      ws, es := ws + more, es + moreEntries;
    }
    assert bs[..|bs|] == bs;
  }

  /** The loop over one ring of a ground area: one wall per pair of consecutive coordinates. */
  method RingSideWalls(cs: seq<Coord>, j: int, base: int) returns (ws: seq<Wall>, es: seq<Entry>)
    ensures ws == RingWalls(cs, j)
    ensures es == EntriesFor(ws, base)
  {
    ws, es := [], [];
    var k := 0;
    while k < |cs| - 1
      invariant 0 <= k <= EdgeCount(cs)
      invariant ws == RingSides(cs, j, k)
      invariant es == EntriesFor(ws, base)
    {
      var w := Wall(Segment(cs[k], cs[k + 1]), j, GroundEffectCut);
      EntriesForSnoc(ws, w, base);
      ws, es := ws + [w], es + [Entry(SegmentEnvelope(w.line), base + k)];
      k := k + 1;
    }
  }

  /** The polygon list of a ground area: its polygon, or each part of its multi-polygon, in order. */
  method AreaPolygons(geom: Shape) returns (polygons: seq<seq<Coord>>)
    ensures polygons == Polygons(geom)
  {
    polygons := [];
    if geom.Polygon? {
      polygons := polygons + [geom.coords];
    }
    if geom.MultiPolygon? {
      var multi := geom.parts;
      for i := 0 to |multi|
        invariant polygons == multi[..i]
      {
        polygons := polygons + [multi[i]];
      }
      assert multi[..|multi|] == multi;
    }
  }

  /** The walls of every polygon of ground area j: its polygon, or each part of its multi-polygon. */
  method AreaWalls(geom: Shape, j: int, base: int) returns (ws: seq<Wall>, es: seq<Entry>)
    ensures ws == RingsWalls(Polygons(geom), j)
    ensures es == EntriesFor(ws, base)
  {
    var polygons := AreaPolygons(geom);
    ws, es := [], [];
    assert polygons[..0] == [];
    for p := 0 to |polygons|
      invariant ws == RingsWalls(polygons[..p], j)
      invariant es == EntriesFor(ws, base)
    {
      var more, moreEntries := RingSideWalls(polygons[p], j, base + |ws|);
      RingsWallsSnoc(polygons, p, j);
      EntriesAppended(ws, more, es, moreEntries, base);
      ws, es := ws + more, es + moreEntries;
    }
    assert polygons[..|polygons|] == polygons;
  }

  /** The loop of the ground stage, over the ground areas in order. */
  method AllGroundWalls(ges: seq<GroundEffect>, base: int) returns (ws: seq<Wall>, es: seq<Entry>)
    ensures ws == GroundWalls(ges)
    ensures es == EntriesFor(ws, base)
  {
    ws, es := [], [];
    assert ges[..0] == [];
    for j := 0 to |ges|
      invariant ws == GroundWalls(ges[..j])
      invariant es == EntriesFor(ws, base)
    {
      var more, moreEntries := AreaWalls(ges[j].geom, j, base + |ws|);
      GroundAreaAppended(ges, j, ws, es, more, moreEntries, base);
      ws, es := ws + more, es + moreEntries;
    }
    assert ges[..|ges|] == ges;
  }

  /** The loop over the sources: the envelope of each, by position. */
  method SourceTreeEntries(ss: seq<Shape>) returns (es: seq<Entry>)
    ensures es == SourceEntries(ss)
  {
    es := [];
    for i := 0 to |ss|
      invariant es == SourceEntries(ss[..i])
    {
      SourceEntriesSnoc(ss, i);
      es := es + [Entry(ShapeEnvelope(ss[i]), i)];
    }
    assert ss[..|ss|] == ss;
  }

  /**
   * The loop over the triangles of a mesh: each triangle's envelope is
   * inserted into the triangle tree, and its three sides are collected.
   */
  method MeshEntries(ts: seq<Triangle>, vs: seq<Coord>) returns (entries: seq<Entry>, sides: seq<Wall>)
    requires MeshBelow(ts, |vs|)
    ensures entries == TriangleEntries(ts, vs)
    ensures sides == TopoWalls(ts, vs)
  {
    entries, sides := [], [];
    assert ts[..0] == [];
    for i := 0 to |ts|
      invariant MeshBelow(ts[..i], |vs|)
      invariant entries == TriangleEntries(ts[..i], vs)
      invariant sides == TopoWalls(ts[..i], vs)
    {
      var tri := ts[i];
      assert tri in ts;
      assert ts[..i + 1][..i] == ts[..i] && ts[..i + 1][i] == tri;
      TriangleEntriesSnoc(ts, i, vs);
      entries := entries + [Entry(EnvelopeOf([vs[tri.a], vs[tri.b], vs[tri.c]]), i)];
      sides := sides + [Wall(Segment(vs[tri.a], vs[tri.b]), i, TopographyCut),
                        Wall(Segment(vs[tri.b], vs[tri.c]), i, TopographyCut),
                        Wall(Segment(vs[tri.c], vs[tri.a]), i, TopographyCut)];
    }
    assert ts[..|ts|] == ts;
  }

  lemma MeshBelowPrefix(ts: seq<Triangle>, i: int, n: int)
    requires MeshBelow(ts, n) && 0 <= i <= |ts|
    ensures MeshBelow(ts[..i], n)
  {
    forall t | t in ts[..i]
      ensures TriangleIn(t, n)
    {
      var k :| 0 <= k < i && ts[..i][k] == t;
      assert ts[k] in ts;
    }
  }

  /** Two sides join the same planar positions, in the same or the opposite direction. */
  predicate SameEdge(a: Segment, b: Segment) {
    (SameXY(a.p0, b.p0) && SameXY(a.p1, b.p1)) || (SameXY(a.p0, b.p1) && SameXY(a.p1, b.p0))
  }

  /** Some side at a position in [i, m) is the same edge as side i. */
  predicate MatchedBetween(ws: seq<Wall>, i: int, m: int)
    requires 0 <= i < |ws| && m <= |ws|
  {
    exists k :: i <= k < m && SameEdge(ws[k].line, ws[i].line)
  }

  /** The positions the duplicate search marks: those with the same edge at or after them. */
  function Matched(ws: seq<Wall>): set<int> {
    set i | 0 <= i < |ws| && MatchedBetween(ws, i, |ws|)
  }

  /** The terrain sides left once every marked side is removed. */
  function EdgeSurvivors(ws: seq<Wall>): seq<Wall> {
    RemoveAt(ws, Matched(ws), 0)
  }

  // ---------------------------------------------------------------------
  // What the walls and trees hold
  // ---------------------------------------------------------------------

  /**
   * Every building wall lies on building number originId; both its ends
   * have a height, and its second end is at the building height.
   */
  lemma {:induction false} BuildingWallsFacts(bs: seq<Building>)
    ensures forall w :: w in BuildingWalls(bs) ==>
      && w.kind == BuildingCut && 0 <= w.originId < |bs|
      && w.line.p0.z.Some? && w.line.p1.z == Some(bs[w.originId].height)
  {
    if bs != [] {
      var p, last := bs[..|bs| - 1], bs[|bs| - 1];
      BuildingWallsFacts(p);
      BuildingSidesIndex(last.poly, last.height, |bs| - 1, EdgeCount(last.poly));
      forall w | w in BuildingWalls(bs)
        ensures w.kind == BuildingCut && 0 <= w.originId < |bs|
        ensures w.line.p0.z.Some? && w.line.p1.z == Some(bs[w.originId].height)
      {
        if w in BuildingWalls(p) {
          assert p[w.originId] == bs[w.originId];
        } else {
          var k :| 0 <= k < EdgeCount(last.poly) && BuildingWallsOf(last, |bs| - 1)[k] == w;
        }
      }
    }
  }

  /** Every edge i of the footprint of building j yields a wall of j joining the edge's two coordinates. */
  lemma {:induction false} BuildingEdgesWalled(bs: seq<Building>, j: int, i: int)
    requires 0 <= j < |bs| && 0 <= i < |bs[j].poly| - 1
    ensures exists w :: (w in BuildingWalls(bs) && w.originId == j
                         && SameXY(w.line.p0, bs[j].poly[i]) && SameXY(w.line.p1, bs[j].poly[i + 1]))
  {
    var p := bs[..|bs| - 1];
    if j == |bs| - 1 {
      BuildingSidesIndex(bs[j].poly, bs[j].height, j, EdgeCount(bs[j].poly));
      var w := BuildingWallsOf(bs[j], j)[i];
      assert w in BuildingWalls(bs);
    } else {
      assert p[j] == bs[j];
      BuildingEdgesWalled(p, j, i);
      var w :| w in BuildingWalls(p) && w.originId == j
        && SameXY(w.line.p0, p[j].poly[i]) && SameXY(w.line.p1, p[j].poly[i + 1]);
      assert w in BuildingWalls(bs);
    }
  }

  /**
   * A building wall has a height at both ends, so the height of the point
   * where the line crosses it is interpolated along the wall and never
   * read from the terrain.
   */
  lemma BuildingCutHeight(ops: GeometryOps, full: Segment, bs: seq<Building>, w: Wall)
    requires w in BuildingWalls(bs) && ops.intersection(full, w.line).Some?
    ensures var at := ops.intersection(full, w.line).value;
      WallCut(ops, full, w) == Some(NewCutPoint(Coord(at.x, at.y, ops.interpolateZ(at, w.line.p0, w.line.p1)), BuildingCut, w.originId))
  {
    BuildingWallsFacts(bs);
  }

  lemma {:induction false} RingsWallsFacts(ps: seq<seq<Coord>>, id: int)
    ensures forall w :: w in RingsWalls(ps, id) ==>
      && w.kind == GroundEffectCut && w.originId == id
      && exists cs, k :: cs in ps && 0 <= k < |cs| - 1 && w.line == Segment(cs[k], cs[k + 1])
  {
    if ps != [] {
      var p := ps[..|ps| - 1];
      RingsWallsFacts(p, id);
      forall w | w in RingsWalls(ps, id)
        ensures w.kind == GroundEffectCut && w.originId == id
        ensures exists cs, k :: cs in ps && 0 <= k < |cs| - 1 && w.line == Segment(cs[k], cs[k + 1])
      {
        if w in RingsWalls(p, id) {
          var cs, k :| cs in p && 0 <= k < |cs| - 1 && w.line == Segment(cs[k], cs[k + 1]);
          assert cs in ps;
        } else {
          var cs := ps[|ps| - 1];
          RingSidesIndex(cs, id, EdgeCount(cs));
          var k :| 0 <= k < EdgeCount(cs) && RingWalls(cs, id)[k] == w;
        }
      }
    }
  }

  /**
   * Every ground wall names one of the ground areas, and joins two
   * consecutive coordinates of one of that area's polygons.
   */
  lemma {:induction false} GroundWallsFacts(ges: seq<GroundEffect>)
    ensures GroundWallsBelow(GroundWalls(ges), |ges|)
    ensures forall w :: w in GroundWalls(ges) ==>
      && w.kind == GroundEffectCut && 0 <= w.originId < |ges|
      && exists cs, k :: cs in Polygons(ges[w.originId].geom) && 0 <= k < |cs| - 1 && w.line == Segment(cs[k], cs[k + 1])
  {
    if ges != [] {
      var p := ges[..|ges| - 1];
      GroundWallsFacts(p);
      RingsWallsFacts(Polygons(ges[|ges| - 1].geom), |ges| - 1);
      forall w | w in GroundWalls(ges)
        ensures w.kind == GroundEffectCut && 0 <= w.originId < |ges|
        ensures exists cs, k :: cs in Polygons(ges[w.originId].geom) && 0 <= k < |cs| - 1 && w.line == Segment(cs[k], cs[k + 1])
      {
        if w in GroundWalls(p) {
          assert p[w.originId] == ges[w.originId];
        }
      }
    }
  }

  /** Ground areas yield walls exactly when one of their polygons has an edge. */
  lemma {:induction false} NoRingsNoWalls(ges: seq<GroundEffect>)
    ensures NoGroundRings(ges) <==> GroundWalls(ges) == []
  {
    GroundWallsFacts(ges);
    if GroundWalls(ges) != [] {
      var w := GroundWalls(ges)[0];
      assert w in GroundWalls(ges);
      var cs, k :| cs in Polygons(ges[w.originId].geom) && 0 <= k < |cs| - 1 && w.line == Segment(cs[k], cs[k + 1]);
      assert ges[w.originId] in ges;
    } else if !NoGroundRings(ges) {
      var g, cs :| g in ges && cs in Polygons(g.geom) && |cs| >= 2;
      var j :| 0 <= j < |ges| && ges[j] == g;
      GroundRingWalled(ges, j, cs);
    }
  }

  /** A polygon of area j with an edge yields a wall of j. */
  lemma {:induction false} GroundRingWalled(ges: seq<GroundEffect>, j: int, cs: seq<Coord>)
    requires 0 <= j < |ges| && cs in Polygons(ges[j].geom) && |cs| >= 2
    ensures GroundWalls(ges) != []
  {
    var p := ges[..|ges| - 1];
    var last := RingsWalls(Polygons(ges[|ges| - 1].geom), |ges| - 1);
    assert GroundWalls(ges) == GroundWalls(p) + last;
    if j == |ges| - 1 {
      RingWalled(Polygons(ges[j].geom), cs, j);
      assert |last| > 0;
    } else {
      assert p[j] == ges[j];
      GroundRingWalled(p, j, cs);
      assert |GroundWalls(p)| > 0;
    }
  }

  lemma {:induction false} RingWalled(ps: seq<seq<Coord>>, cs: seq<Coord>, id: int)
    requires cs in ps && |cs| >= 2
    ensures RingsWalls(ps, id) != []
  {
    if ps[|ps| - 1] != cs {
      var k :| 0 <= k < |ps| && ps[k] == cs;
      assert ps[..|ps| - 1][k] == cs;
      RingWalled(ps[..|ps| - 1], cs, id);
    } else {
      assert RingWalls(cs, id) != [];
    }
  }

  lemma {:induction false} BuildingSidesIndex(cs: seq<Coord>, height: real, j: int, n: nat)
    requires n <= EdgeCount(cs)
    ensures |BuildingSides(cs, height, j, n)| == n
    ensures forall k :: 0 <= k < n ==> BuildingSides(cs, height, j, n)[k] == BuildingSide(cs, height, j, k)
  {
    if n > 0 {
      BuildingSidesIndex(cs, height, j, n - 1);
    }
  }

  lemma {:induction false} RingSidesIndex(cs: seq<Coord>, id: int, n: nat)
    requires n <= EdgeCount(cs)
    ensures |RingSides(cs, id, n)| == n
    ensures forall k :: 0 <= k < n ==> RingSides(cs, id, n)[k] == RingSide(cs, id, k)
  {
    if n > 0 {
      RingSidesIndex(cs, id, n - 1);
    }
  }

  lemma {:induction false} EntriesForIndex(ws: seq<Wall>, base: int)
    ensures |EntriesFor(ws, base)| == |ws|
    ensures forall k :: 0 <= k < |ws| ==> EntriesFor(ws, base)[k] == Entry(SegmentEnvelope(ws[k].line), base + k)
  {
    if ws != [] {
      EntriesForIndex(ws[..|ws| - 1], base);
    }
  }

  lemma {:induction false} SourceEntriesIndex(ss: seq<Shape>)
    ensures |SourceEntries(ss)| == |ss|
    ensures forall k :: 0 <= k < |ss| ==> SourceEntries(ss)[k] == Entry(ShapeEnvelope(ss[k]), k)
  {
    if ss != [] {
      SourceEntriesIndex(ss[..|ss| - 1]);
    }
  }

  lemma {:induction false} TriangleEntriesIndex(ts: seq<Triangle>, vs: seq<Coord>)
    requires MeshBelow(ts, |vs|)
    ensures |TriangleEntries(ts, vs)| == |ts|
    ensures forall k :: 0 <= k < |ts| ==> TriangleIn(ts[k], |vs|) && TriangleEntries(ts, vs)[k] == Entry(TriangleEnvelope(vs, ts[k]), k)
  {
    if ts != [] {
      MeshBelowPrefix(ts, |ts| - 1, |vs|);
      TriangleEntriesIndex(ts[..|ts| - 1], vs);
      forall k | 0 <= k < |ts|
        ensures TriangleIn(ts[k], |vs|)
      {
        assert ts[k] in ts;
      }
    }
  }

  lemma {:induction false} EntriesForSnoc(ws: seq<Wall>, w: Wall, base: int)
    ensures EntriesFor([], base) == []
    ensures EntriesFor(ws + [w], base) == EntriesFor(ws, base) + [Entry(SegmentEnvelope(w.line), base + |ws|)]
  {
    assert (ws + [w])[..|ws|] == ws;
  }

  lemma {:induction false} SourceEntriesSnoc(ss: seq<Shape>, i: int)
    requires 0 <= i < |ss|
    ensures SourceEntries(ss[..0]) == []
    ensures SourceEntries(ss[..i + 1]) == SourceEntries(ss[..i]) + [Entry(ShapeEnvelope(ss[i]), i)]
  {
    assert ss[..i + 1][..i] == ss[..i];
  }

  lemma {:induction false} TriangleEntriesSnoc(ts: seq<Triangle>, i: int, vs: seq<Coord>)
    requires MeshBelow(ts, |vs|) && 0 <= i < |ts|
    ensures MeshBelow(ts[..i], |vs|) && MeshBelow(ts[..i + 1], |vs|) && TriangleIn(ts[i], |vs|)
    ensures TriangleEntries(ts[..0], vs) == []
    ensures TriangleEntries(ts[..i + 1], vs) == TriangleEntries(ts[..i], vs) + [Entry(TriangleEnvelope(vs, ts[i]), i)]
  {
    MeshBelowPrefix(ts, i, |vs|);
    MeshBelowPrefix(ts, i + 1, |vs|);
    assert ts[i] in ts;
    assert ts[..i + 1][..i] == ts[..i];
  }

  /** Entries of a and of b, numbered on from a, are the entries of a + b. */
  lemma EntriesAppended(a: seq<Wall>, b: seq<Wall>, ea: seq<Entry>, eb: seq<Entry>, base: int)
    requires ea == EntriesFor(a, base) && eb == EntriesFor(b, base + |a|)
    ensures ea + eb == EntriesFor(a + b, base)
  {
    EntriesForAppend(a, b, base);
  }

  lemma EntriesForAppend(a: seq<Wall>, b: seq<Wall>, base: int)
    ensures EntriesFor(a + b, base) == EntriesFor(a, base) + EntriesFor(b, base + |a|)
  {
    EntriesForIndex(a + b, base);
    EntriesForIndex(a, base);
    EntriesForIndex(b, base + |a|);
    var l, r := EntriesFor(a + b, base), EntriesFor(a, base) + EntriesFor(b, base + |a|);
    forall k | 0 <= k < |l|
      ensures l[k] == r[k]
    {
      if k >= |a| {
        assert (a + b)[k] == b[k - |a|];
      }
    }
  }

  /** The building stage keeps every wall-tree entry naming its wall, and adds no ground wall. */
  lemma BuildingStageKeepsIndex(w0: seq<Wall>, r0: Option<seq<Entry>>, bs: seq<Building>, n: int)
    requires r0.Some? ==> WallTree(r0.value, w0)
    requires GroundWallsBelow(w0, n)
    ensures WallTree(EntriesFor(BuildingWalls(bs), |w0|), w0 + BuildingWalls(bs))
    ensures r0.Some? ==> WallTree(r0.value, w0 + BuildingWalls(bs))
    ensures GroundWallsBelow(w0 + BuildingWalls(bs), n)
  {
    BuildingWallsFacts(bs);
    WallTreeAppend([], w0, BuildingWalls(bs));
    if r0.Some? {
      WallTreeAppend(r0.value, w0, BuildingWalls(bs));
    }
  }

  /** The ground stage keeps every wall-tree entry naming its wall, and its walls name known ground areas. */
  lemma GroundStageKeepsIndex(w1: seq<Wall>, r1: Option<seq<Entry>>, ges: seq<GroundEffect>)
    requires r1.Some? ==> WallTree(r1.value, w1)
    requires GroundWallsBelow(w1, |ges|)
    ensures r1.Some? ==> WallTree(r1.value + EntriesFor(GroundWalls(ges), |w1|), w1 + GroundWalls(ges))
    ensures GroundWallsBelow(w1 + GroundWalls(ges), |ges|)
  {
    GroundWallsFacts(ges);
    if r1.Some? {
      WallTreeAppend(r1.value, w1, GroundWalls(ges));
    }
  }

  /** The walls of one more building. */
  lemma BuildingWallsSnoc(bs: seq<Building>, j: int)
    requires 0 <= j < |bs|
    ensures BuildingWalls(bs[..j + 1]) == BuildingWalls(bs[..j]) + BuildingWallsOf(bs[j], j)
  {
    assert bs[..j + 1][..j] == bs[..j];
  }

  /** The ground walls of one more area. */
  lemma RingsWallsSnoc(ps: seq<seq<Coord>>, p: int, id: int)
    requires 0 <= p < |ps|
    ensures RingsWalls(ps[..p + 1], id) == RingsWalls(ps[..p], id) + RingWalls(ps[p], id)
  {
    assert ps[..p + 1][..p] == ps[..p];
  }

  /** The walls of one more ground area. */
  lemma GroundWallsSnoc(ges: seq<GroundEffect>, j: int)
    requires 0 <= j < |ges|
    ensures GroundWalls(ges[..j + 1]) == GroundWalls(ges[..j]) + RingsWalls(Polygons(ges[j].geom), j)
  {
    assert ges[..j + 1][..j] == ges[..j];
  }

  /** One step of the ground-stage loop: the walls and entries of area j appended to those before it. */
  lemma GroundAreaAppended(ges: seq<GroundEffect>, j: int, ws: seq<Wall>, es: seq<Entry>,
                           more: seq<Wall>, moreEntries: seq<Entry>, base: int)
    requires 0 <= j < |ges|
    requires ws == GroundWalls(ges[..j]) && es == EntriesFor(ws, base)
    requires more == RingsWalls(Polygons(ges[j].geom), j) && moreEntries == EntriesFor(more, base + |ws|)
    ensures ws + more == GroundWalls(ges[..j + 1])
    ensures es + moreEntries == EntriesFor(ws + more, base)
  {
    GroundWallsSnoc(ges, j);
    EntriesAppended(ws, more, es, moreEntries, base);
  }

  /** Appending walls with their entries keeps every entry naming its wall and envelope. */
  lemma WallTreeAppend(es: seq<Entry>, ws: seq<Wall>, more: seq<Wall>)
    requires WallTree(es, ws)
    ensures WallTree(es, ws + more)
    ensures WallTree(es + EntriesFor(more, |ws|), ws + more)
  {
    var all := ws + more;
    forall e | e in es + EntriesFor(more, |ws|)
      ensures 0 <= e.item < |all| && e.env == SegmentEnvelope(all[e.item].line)
    {
      if e !in es {
        EntriesForIndex(more, |ws|);
        var k :| 0 <= k < |more| && EntriesFor(more, |ws|)[k] == e;
        assert all[|ws| + k] == more[k];
      }
    }
  }

  /** The triangle tree names each triangle once, with the envelope of its corners. */
  lemma TriangleTree(ts: seq<Triangle>, vs: seq<Coord>)
    requires MeshBelow(ts, |vs|)
    ensures MeshTree(TriangleEntries(ts, vs), ts, |vs|)
    ensures forall i :: 0 <= i < |ts| ==>
      (&& TriangleEntries(ts, vs)[i].item == i
       && Covers(TriangleEntries(ts, vs)[i].env, PointEnvelope(vs[ts[i].a]))
       && Covers(TriangleEntries(ts, vs)[i].env, PointEnvelope(vs[ts[i].b]))
       && Covers(TriangleEntries(ts, vs)[i].env, PointEnvelope(vs[ts[i].c])))
  {
    TriangleEntriesIndex(ts, vs);
    var es := TriangleEntries(ts, vs);
    forall e | e in es
      ensures 0 <= e.item < |ts| && TriangleIn(ts[e.item], |vs|)
    {
      var k :| 0 <= k < |es| && es[k] == e;
    }
    forall i | 0 <= i < |ts|
      ensures Covers(TriangleEntries(ts, vs)[i].env, PointEnvelope(vs[ts[i].a]))
      ensures Covers(TriangleEntries(ts, vs)[i].env, PointEnvelope(vs[ts[i].b]))
      ensures Covers(TriangleEntries(ts, vs)[i].env, PointEnvelope(vs[ts[i].c]))
    {
      var t := ts[i];
      var cs := [vs[t.a], vs[t.b], vs[t.c]];
      EnvelopeOfCovers(cs);
      assert es[i].env == EnvelopeOf(cs);
      assert Covers(es[i].env, PointEnvelope(cs[0]));
      assert Covers(es[i].env, PointEnvelope(cs[1]));
      assert Covers(es[i].env, PointEnvelope(cs[2]));
    }
  }

  /**
   * The duplicate search marks every side, because each side is the same
   * edge as itself: no terrain side survives, and none is added to the
   * walls.
   */
  lemma NoTopographicWallSurvives(ws: seq<Wall>)
    ensures EdgeSurvivors(ws) == []
  {
    var r := EdgeSurvivors(ws);
    if r != [] {
      assert r[0] in r;
      var j :| 0 <= j < |ws| && j !in Matched(ws) && ws[j] == r[0];
      assert SameEdge(ws[j].line, ws[j].line);
      assert false;
    }
  }

  // ---------------------------------------------------------------------
  // The builder
  // ---------------------------------------------------------------------

  /** The duplicate search over the terrain sides: each side is marked when a side at or after it is the same edge. */
  method RemoveDuplicateEdges(ws: seq<Wall>) returns (survivors: seq<Wall>)
    ensures survivors == EdgeSurvivors(ws)
  {
    var toRemove: set<int> := {};
    for i := 0 to |ws|
      invariant toRemove == set j | 0 <= j < i && MatchedBetween(ws, j, |ws|)
    {
      ghost var before := toRemove;
      for m := i to |ws|
        invariant toRemove == before + (if MatchedBetween(ws, i, m) then {i} else {})
      {
        if SameEdge(ws[m].line, ws[i].line) {
          toRemove := toRemove + {i};
        }
      }
    }
    survivors := RemoveAt(ws, toRemove, 0);
  }

  /** What finishFeeding derives from the data fed: the walls and their tree, the mesh and its tree, the source tree. */
  datatype Derived = Derived(
    walls: seq<Wall>,
    rtree: Option<seq<Entry>>,
    triangles: seq<Triangle>,
    vertices: seq<Coord>,
    topoTree: Option<seq<Entry>>,
    sourceTree: Option<seq<Entry>>)

  /** The invariant of the derived data: every tree entry names what it indexes, every ground wall a ground area. */
  predicate DerivedIndexed(d: Derived, ges: seq<GroundEffect>, ss: seq<Shape>) {
    && (d.rtree.Some? ==> WallTree(d.rtree.value, d.walls))
    && GroundWallsBelow(d.walls, |ges|)
    && (d.topoTree.Some? ==> MeshTree(d.topoTree.value, d.triangles, |d.vertices|))
    && (d.sourceTree.Some? ==> SourceTree(d.sourceTree.value, ss))
  }

  /** The terrain is meshed, and ground walls are made, unless the Delaunay step failed on fed terrain. */
  predicate MeshBuilt(terrainFed: bool, mesh: Delaunay) {
    !terrainFed || mesh.Meshed?
  }

  /** The source stage: the source tree is rebuilt over the sources when there are any. */
  function WithSources(d: Derived, ss: seq<Shape>): Derived {
    if ss == [] then d else d.(sourceTree := Some(SourceEntries(ss)))
  }

  /** The building stage: when the first building has a polygon, the building walls are appended under a new wall tree. */
  function WithBuildings(d: Derived, bs: seq<Building>): Derived {
    if BuildsWallTree(bs) then d.(walls := d.walls + BuildingWalls(bs), rtree := Some(EntriesFor(BuildingWalls(bs), |d.walls|)))
    else d
  }

  /** The terrain stage: with terrain fed, the mesh and the triangle tree are replaced as far as the Delaunay step got. */
  function WithMesh(d: Derived, terrainFed: bool, mesh: Delaunay): Derived
    requires terrainFed ==> MeshOk(mesh)
  {
    if !terrainFed then d
    else
      match mesh
      case Failed => d
      case VerticesFailed(ts) => d.(triangles := ts, topoTree := Some([]))
      case Meshed(ts, vs) => d.(triangles := ts, vertices := vs, topoTree := Some(TriangleEntries(ts, vs)))
  }

  /** The ground stage: every side of every ground polygon is appended and inserted into the wall tree. */
  function WithGrounds(d: Derived, ges: seq<GroundEffect>): Derived {
    d.(walls := d.walls + GroundWalls(ges), rtree := Grow(d.rtree, EntriesFor(GroundWalls(ges), |d.walls|)))
  }

  /**
   * finishFeeding on the derived data d, given the buildings, the ground
   * areas, the sources, whether at least two terrain points and lines were
   * fed, and the Delaunay outcome: the four stages in order, the ground
   * stage only when the mesh was built.
   */
  function Finished(d: Derived, bs: seq<Building>, ges: seq<GroundEffect>, ss: seq<Shape>,
                    terrainFed: bool, mesh: Delaunay): Derived
    requires terrainFed ==> MeshOk(mesh)
  {
    var meshed := WithMesh(WithBuildings(WithSources(d, ss), bs), terrainFed, mesh);
    if MeshBuilt(terrainFed, mesh) then WithGrounds(meshed, ges) else meshed
  }

  /**
   * The indexing done by finishFeeding, on the derived data: the source
   * tree, the building walls, the terrain mesh and, when the mesh is built,
   * the ground walls. The result is Finished's, and keeps the invariant.
   */
  method FinishIndexes(d0: Derived, bs: seq<Building>, ges: seq<GroundEffect>, ss: seq<Shape>, terrainFed: bool, mesh: Delaunay)
    returns (ok: bool, d: Derived)
    requires DerivedIndexed(d0, ges, ss)
    requires terrainFed ==> MeshOk(mesh)
    requires d0.rtree.Some? || BuildsWallTree(bs) || NoGroundRings(ges) || (terrainFed && !mesh.Meshed?)
    ensures DerivedIndexed(d, ges, ss)
    ensures ok == MeshBuilt(terrainFed, mesh)
    ensures d == Finished(d0, bs, ges, ss, terrainFed, mesh)
  {
    d := SourceStage(d0, ges, ss);
    d := BuildingStage(d, bs, ges, ss);
    ok, d := TerrainStage(d, ges, ss, terrainFed, mesh);
    if ok {
      NoRingsNoWalls(ges);
      d := GroundStage(d, ges, ss);
    }
  }

  /** The source loop of finishFeeding, when there are sources. */
  method SourceStage(d0: Derived, ges: seq<GroundEffect>, ss: seq<Shape>) returns (d: Derived)
    requires DerivedIndexed(d0, ges, ss)
    ensures DerivedIndexed(d, ges, ss)
    ensures d == WithSources(d0, ss)
  {
    d := d0;
    if ss != [] {
      var es := SourceTreeEntries(ss);
      SourceEntriesIndex(ss);
      d := d.(sourceTree := Some(es));
    }
  }

  /** The building walls of finishFeeding: written, with a new wall tree, when the first building has a polygon. */
  method BuildingStage(d0: Derived, bs: seq<Building>, ges: seq<GroundEffect>, ss: seq<Shape>) returns (d: Derived)
    requires DerivedIndexed(d0, ges, ss)
    ensures DerivedIndexed(d, ges, ss)
    ensures d == WithBuildings(d0, bs)
  {
    d := d0;
    if |bs| >= 1 && |bs[0].poly| >= 3 {
      var ws, es := AllBuildingWalls(bs, |d0.walls|);
      BuildingStageKeepsIndex(d0.walls, d0.rtree, bs, |ges|);
      d := d.(walls := d0.walls + ws, rtree := Some(es));
    }
  }

  /**
   * The terrain of finishFeeding: with terrain fed, the mesh is kept and
   * indexed when meshing succeeds; its sides all find themselves as
   * duplicates, so none becomes a wall.
   */
  method TerrainStage(d0: Derived, ges: seq<GroundEffect>, ss: seq<Shape>, terrainFed: bool, mesh: Delaunay)
    returns (ok: bool, d: Derived)
    requires DerivedIndexed(d0, ges, ss)
    requires terrainFed ==> MeshOk(mesh)
    ensures DerivedIndexed(d, ges, ss)
    ensures ok == MeshBuilt(terrainFed, mesh)
    ensures d == WithMesh(d0, terrainFed, mesh)
  {
    ok, d := true, d0;
    if terrainFed {
      match mesh
      case Failed =>
        ok := false;
      case VerticesFailed(ts) =>
        d := d.(triangles := ts, topoTree := Some([]));
        ok := false;
      case Meshed(ts, mvs) =>
        var entries, topoWalls := MeshEntries(ts, mvs);
        TriangleTree(ts, mvs);
        d := d.(triangles := ts, vertices := mvs, topoTree := Some(entries));
        var survivors := RemoveDuplicateEdges(topoWalls);
        NoTopographicWallSurvives(topoWalls);
        // Every side is removed, so appending the survivors to the walls adds nothing.
        assert survivors == [];
    }
  }

  /** The ground walls of finishFeeding: every polygon side of every ground area, inserted into the wall tree. */
  method GroundStage(d0: Derived, ges: seq<GroundEffect>, ss: seq<Shape>) returns (d: Derived)
    requires DerivedIndexed(d0, ges, ss)
    requires d0.rtree.Some? || GroundWalls(ges) == []
    ensures DerivedIndexed(d, ges, ss)
    ensures d == WithGrounds(d0, ges)
  {
    GroundStageKeepsIndex(d0.walls, d0.rtree, ges);
    var ws, es := AllGroundWalls(ges, |d0.walls|);
    d := d0.(walls := d0.walls + ws, rtree := Grow(d0.rtree, es));
  }

  /** AddTopographicPoint gives a point without a height the height 0. */
  function Forced3D(p: Coord): (r: Coord)
    ensures SameXY(r, p) && r.z.Some?
    ensures p.z.Some? ==> r == p
  {
    if p.z.None? then Coord(p.x, p.y, Some(0.0)) else p
  }

  class ProfileBuilder {
    var isFeedingFinished: bool
    var buildingNodeCapacity: int
    var topoNodeCapacity: int
    var groundNodeCapacity: int
    var maxLineLength: real
    var buildings: seq<Building>
    var walls: seq<Wall>
    var rtree: Option<seq<Entry>>
    var topoPoints: seq<Coord>
    var topoLines: seq<seq<Coord>>
    var topoTriangles: seq<Triangle>
    var vertices: seq<Coord>
    var topoTree: Option<seq<Entry>>
    var groundEffects: seq<GroundEffect>
    var sources: seq<Shape>
    var sourceTree: Option<seq<Entry>>
    var receivers: seq<Coord>
    var envelope: Envelope
    var maxArea: real

    /**
     * The trees name what they index, every ground wall names a ground
     * area, and the global envelope covers all data fed.
     */
    ghost predicate Valid()
      reads this
    {
      Indexed() && Covered()
    }

    /** The trees name what they index and every ground wall names a ground area. */
    ghost predicate Indexed()
      reads this`maxLineLength, this`rtree, this`walls, this`groundEffects, this`sourceTree, this`sources
      reads this`topoTree, this`topoTriangles, this`vertices
    {
      maxLineLength > 0.0 && DerivedIndexed(Current(), groundEffects, sources)
    }

    /** The global envelope covers every building, terrain point and line, and ground area fed. */
    ghost predicate Covered()
      reads this`envelope, this`buildings, this`topoPoints, this`topoLines, this`groundEffects
    {
      CoversAll(envelope, buildings, topoPoints, topoLines, groundEffects)
    }

    /** A valid builder can be queried. */
    lemma Queryable()
      requires Indexed()
      ensures ValidIndex(QueryIndex())
    {
    }

    /** What a profile query reads of the builder. */
    function QueryIndex(): Index
      reads this
    {
      Index(maxLineLength, walls, rtree, topoTriangles, vertices, topoTree, groundEffects)
    }

    constructor ()
      ensures Valid() && !isFeedingFinished
      ensures maxLineLength == DefaultMaxLineLength
      ensures buildingNodeCapacity == TreeNodeCapacity && topoNodeCapacity == TreeNodeCapacity
      ensures groundNodeCapacity == TreeNodeCapacity
      ensures buildings == [] && walls == [] && rtree == None
      ensures topoPoints == [] && topoLines == [] && topoTriangles == [] && vertices == [] && topoTree == None
      ensures groundEffects == [] && sources == [] && sourceTree == None && receivers == []
      ensures envelope == Empty && maxArea == 0.0
    {
      isFeedingFinished := false;
      buildingNodeCapacity, topoNodeCapacity, groundNodeCapacity := TreeNodeCapacity, TreeNodeCapacity, TreeNodeCapacity;
      maxLineLength := DefaultMaxLineLength;
      buildings, walls, rtree := [], [], None;
      topoPoints, topoLines, topoTriangles, vertices, topoTree := [], [], [], [], None;
      groundEffects, sources, sourceTree, receivers := [], [], None, [];
      envelope, maxArea := Empty, 0.0;
    }

    /** The constructor setting the node capacities and the piece length. */
    constructor WithParameters(buildingNodeCapacity: int, topoNodeCapacity: int, groundNodeCapacity: int, maxLineLength: int)
      requires maxLineLength > 0
      ensures Valid() && !this.isFeedingFinished
      ensures this.maxLineLength == maxLineLength as real
      ensures this.buildingNodeCapacity == buildingNodeCapacity && this.topoNodeCapacity == topoNodeCapacity
      ensures this.groundNodeCapacity == groundNodeCapacity
      ensures buildings == [] && walls == [] && rtree == None
      ensures topoPoints == [] && topoLines == [] && topoTriangles == [] && vertices == [] && topoTree == None
      ensures groundEffects == [] && sources == [] && sourceTree == None && receivers == []
      ensures envelope == Empty && maxArea == 0.0
    {
      isFeedingFinished := false;
      this.buildingNodeCapacity := buildingNodeCapacity;
      this.topoNodeCapacity := topoNodeCapacity;
      this.groundNodeCapacity := groundNodeCapacity;
      this.maxLineLength := maxLineLength as real;
      buildings, walls, rtree := [], [], None;
      topoPoints, topoLines, topoTriangles, vertices, topoTree := [], [], [], [], None;
      groundEffects, sources, sourceTree, receivers := [], [], None, [];
      envelope, maxArea := Empty, 0.0;
    }

    // -------------------------------------------------------------------
    // Feeding
    // -------------------------------------------------------------------

    /** Adds a building until feeding is finished; afterwards nothing changes and no building is returned. */
    method AddBuilding(b: Building) returns (r: Option<Building>)
      requires Valid()
      modifies this`envelope, this`buildings
      ensures Valid()
      ensures old(isFeedingFinished) ==> r == None && envelope == old(envelope) && buildings == old(buildings)
      ensures !old(isFeedingFinished) ==>
        && r == Some(b) && buildings == old(buildings) + [b]
        && envelope == ExpandToInclude(old(envelope), EnvelopeOf(b.poly))
    {
      if !isFeedingFinished {
        // Expanding the null envelope gives the building's own envelope.
        CoversAllWiden(envelope, EnvelopeOf(b.poly), buildings, topoPoints, topoLines, groundEffects);
        envelope := ExpandToInclude(envelope, EnvelopeOf(b.poly));
        buildings := buildings + [b];
        r := Some(b);
      } else {
        r := None;
      }
    }

    /**
     * Adds a building from a footprint. Only a polygon is accepted, even
     * after feeding is finished; the database id is dropped.
     */
    method AddBuildingGeometry(geom: Shape, height: real, alphas: seq<real>, id: int) returns (r: Option<Building>)
      requires Valid()
      modifies this`envelope, this`buildings
      ensures Valid()
      ensures !geom.Polygon? || old(isFeedingFinished) ==>
        r == None && envelope == old(envelope) && buildings == old(buildings)
      ensures geom.Polygon? && !old(isFeedingFinished) ==>
        && r == Some(Building(geom.coords, height, alphas))
        && buildings == old(buildings) + [Building(geom.coords, height, alphas)]
        && envelope == ExpandToInclude(old(envelope), ShapeEnvelope(geom))
    {
      if !geom.Polygon? {
        return None;
      }
      if !isFeedingFinished {
        CoversAllWiden(envelope, ShapeEnvelope(geom), buildings, topoPoints, topoLines, groundEffects);
        envelope := ExpandToInclude(envelope, ShapeEnvelope(geom));
        var building := Building(geom.coords, height, alphas);
        buildings := buildings + [building];
        r := Some(building);
      } else {
        r := None;
      }
    }

    /** The footprint-only overload: height -1, no absorption coefficients. */
    method AddFootprint(geom: Shape) returns (r: Option<Building>)
      requires Valid()
      modifies this`envelope, this`buildings
      ensures Valid()
      ensures !geom.Polygon? || old(isFeedingFinished) ==>
        r == None && envelope == old(envelope) && buildings == old(buildings)
      ensures geom.Polygon? && !old(isFeedingFinished) ==>
        && r == Some(Building(geom.coords, -1.0, []))
        && buildings == old(buildings) + [Building(geom.coords, -1.0, [])]
        && envelope == ExpandToInclude(old(envelope), ShapeEnvelope(geom))
    {
      r := AddBuildingGeometry(geom, -1.0, [], -1);
    }

    /** The footprint-and-height overloads: no absorption coefficients. */
    method AddBuildingWithHeight(geom: Shape, height: real, id: int) returns (r: Option<Building>)
      requires Valid()
      modifies this`envelope, this`buildings
      ensures Valid()
      ensures !geom.Polygon? || old(isFeedingFinished) ==>
        r == None && envelope == old(envelope) && buildings == old(buildings)
      ensures geom.Polygon? && !old(isFeedingFinished) ==>
        && r == Some(Building(geom.coords, height, []))
        && buildings == old(buildings) + [Building(geom.coords, height, [])]
        && envelope == ExpandToInclude(old(envelope), ShapeEnvelope(geom))
    {
      r := AddBuildingGeometry(geom, height, [], id);
    }

    /** Adds a terrain point, with height 0 when it has none, until feeding is finished. */
    method AddTopographicPoint(p: Coord)
      requires Valid()
      modifies this`envelope, this`topoPoints
      ensures Valid()
      ensures old(isFeedingFinished) ==> envelope == old(envelope) && topoPoints == old(topoPoints)
      ensures !old(isFeedingFinished) ==>
        && topoPoints == old(topoPoints) + [Forced3D(p)]
        && envelope == ExpandToInclude(old(envelope), PointEnvelope(p))
    {
      if !isFeedingFinished {
        var q := if p.z.None? then Coord(p.x, p.y, Some(0.0)) else p;
        CoversAllWiden(envelope, PointEnvelope(q), buildings, topoPoints, topoLines, groundEffects);
        envelope := ExpandToInclude(envelope, PointEnvelope(q));
        topoPoints := topoPoints + [q];
      }
    }

    /** Adds a terrain line until feeding is finished. */
    method AddTopographicLine(line: seq<Coord>)
      requires Valid()
      modifies this`envelope, this`topoLines
      ensures Valid()
      ensures old(isFeedingFinished) ==> envelope == old(envelope) && topoLines == old(topoLines)
      ensures !old(isFeedingFinished) ==>
        && topoLines == old(topoLines) + [line]
        && envelope == ExpandToInclude(old(envelope), EnvelopeOf(line))
    {
      if !isFeedingFinished {
        CoversAllWiden(envelope, EnvelopeOf(line), buildings, topoPoints, topoLines, groundEffects);
        envelope := ExpandToInclude(envelope, EnvelopeOf(line));
        topoLines := topoLines + [line];
      }
    }

    /** Adds a ground area with its coefficient until feeding is finished. */
    method AddGroundEffect(geom: Shape, coefficient: real)
      requires Valid()
      modifies this`envelope, this`groundEffects
      ensures Valid()
      ensures old(isFeedingFinished) ==> envelope == old(envelope) && groundEffects == old(groundEffects)
      ensures !old(isFeedingFinished) ==>
        && groundEffects == old(groundEffects) + [GroundEffect(geom, coefficient)]
        && envelope == ExpandToInclude(old(envelope), ShapeEnvelope(geom))
    {
      if !isFeedingFinished {
        CoversAllWiden(envelope, ShapeEnvelope(geom), buildings, topoPoints, topoLines, groundEffects);
        envelope := ExpandToInclude(envelope, ShapeEnvelope(geom));
        groundEffects := groundEffects + [GroundEffect(geom, coefficient)];
      }
    }

    /** Adds a point source, also after feeding is finished; the envelope is not grown. */
    method AddSourcePoint(c: Coord)
      requires Valid()
      modifies this`sources
      ensures Valid()
      ensures sources == old(sources) + [OtherShape([c])]
    {
      sources := sources + [OtherShape([Coord(c.x, c.y, c.z)])];
    }

    /** Adds a source geometry, also after feeding is finished. */
    method AddSource(g: Shape)
      requires Valid()
      modifies this`sources
      ensures Valid()
      ensures sources == old(sources) + [g]
    {
      sources := sources + [g];
    }

    /** Adds a receiver, also after feeding is finished. */
    method AddReceiver(c: Coord)
      requires Valid()
      modifies this`receivers
      ensures Valid()
      ensures receivers == old(receivers) + [c]
    {
      receivers := receivers + [Coord(c.x, c.y, c.z)];
    }

    /** Forgets the buildings, whether or not feeding is finished; their walls stay. */
    method ClearBuildings()
      requires Valid()
      modifies this`buildings
      ensures Valid() && buildings == []
    {
      buildings := [];
    }

    method SetMaximumArea(maximumArea: real)
      requires Valid()
      modifies this`maxArea
      ensures Valid()
      ensures maxArea == maximumArea
    {
      maxArea := maximumArea;
    }

    // -------------------------------------------------------------------
    // finishFeeding
    // -------------------------------------------------------------------

    /** The derived data of the builder. */
    function Current(): Derived
      reads this`walls, this`rtree, this`topoTriangles, this`vertices, this`topoTree, this`sourceTree
    {
      Derived(walls, rtree, topoTriangles, vertices, topoTree, sourceTree)
    }

    /** The end of finishFeeding: the derived data written back, and the lock set. */
    method SetIndexes(d: Derived)
      requires maxLineLength > 0.0 && DerivedIndexed(d, groundEffects, sources)
      modifies this`isFeedingFinished, this`sourceTree, this`walls, this`rtree, this`topoTriangles, this`vertices, this`topoTree
      ensures Indexed() && isFeedingFinished
      ensures Current() == d
    {
      isFeedingFinished := true;
      walls, rtree, topoTriangles, vertices, topoTree, sourceTree := d.walls, d.rtree, d.triangles, d.vertices, d.topoTree, d.sourceTree;
    }

    /**
     * finishFeeding: the derived data become Finished's for what was fed
     * and the Delaunay outcome mesh, the invariant is kept, feeding is
     * locked, and the result says whether the mesh was built.
     */
    method FinishFeeding(mesh: Delaunay) returns (ok: bool)
      requires Indexed()
      requires |topoPoints| + |topoLines| > 1 ==> MeshOk(mesh)
      requires || rtree.Some? || BuildsWallTree(buildings) || NoGroundRings(groundEffects)
               || (|topoPoints| + |topoLines| > 1 && !mesh.Meshed?)
      modifies this`isFeedingFinished, this`sourceTree, this`walls, this`rtree
      modifies this`topoTriangles, this`vertices, this`topoTree
      ensures Indexed() && isFeedingFinished
      ensures ok == MeshBuilt(|topoPoints| + |topoLines| > 1, mesh)
      ensures Current() == Finished(old(Current()), buildings, groundEffects, sources, |topoPoints| + |topoLines| > 1, mesh)
    {
      var terrainFed := |topoPoints| + |topoLines| > 1;
      var d0, bs, ges, ss := Current(), buildings, groundEffects, sources;
      var done, d := FinishIndexes(d0, bs, ges, ss, terrainFed, mesh);
      ok := done;
      SetIndexes(d);
      assert bs == buildings && ges == groundEffects && ss == sources;
    }

    // -------------------------------------------------------------------
    // getProfile
    // -------------------------------------------------------------------

    /**
     * getProfile: the profile from c0 to c1 is the one ProfilePoints
     * specifies for the builder's indexed data; its source and receiver
     * are the profile's source and receiver points, and its flags say
     * whether a building or a ground border was crossed. The terrain flag
     * stays unset.
     */
    method GetProfile(ops: GeometryOps, c0: Coord, c1: Coord) returns (profile: CutProfile)
      requires Indexed() && TerrainHeightsAvailable(QueryIndex())
      ensures fresh(profile)
      ensures profile.pts == ProfilePoints(ops, QueryIndex(), c0, c1)
      ensures profile.source == FirstOfKind(profile.pts, SourceCut)
      ensures profile.receiver == FirstOfKind(profile.pts, ReceiverCut)
      ensures var full := Segment(c0, c1);
        var found := WallPoints(ops, QueryIndex(), full, Pieces(ops, full, maxLineLength));
        profile.hasBuilding == HasKind(found, BuildingCut) && profile.hasGroundEffect == HasKind(found, GroundEffectCut)
      ensures !profile.hasTopography
    {
      var ix := QueryIndex();
      Queryable();
      profile := CollectCuts(ops, ix, c0, c1);
      OrderAndGround(ops, ix, c0, c1, profile);
    }
  }

  /** The building and ground-effect stage: the walls the pieces' boxes meet, each once, crossed with the whole line. */
  method AddWallCutPoints(ops: GeometryOps, ix: Index, full: Segment, lines: seq<Segment>, profile: CutProfile)
    requires ValidIndex(ix) && TerrainHeightsAvailable(ix)
    modifies profile
    ensures profile.pts == old(profile.pts) + WallPoints(ops, ix, full, lines)
    ensures profile.hasBuilding == (old(profile.hasBuilding) || HasKind(WallPoints(ops, ix, full, lines), BuildingCut))
    ensures profile.hasGroundEffect == (old(profile.hasGroundEffect) || HasKind(WallPoints(ops, ix, full, lines), GroundEffectCut))
    ensures profile.hasTopography == old(profile.hasTopography)
    ensures profile.source == old(profile.source) && profile.receiver == old(profile.receiver)
  {
    if ix.rtree.Some? {
      var hits := CollectHits(ix.rtree.value, lines);
      var indexes := Distinct(hits);
      HitsBelow(ix.rtree.value, lines, |ix.walls|);
      AddWallCuts(ops, full, ix.walls, indexes, ix.topoTree.Some? && ix.topoTree.value != [], profile);
    }
  }

  /** The terrain stage: the crossings with the mesh, of each planar position the last one, appended as they are. */
  method AddTerrainCutPoints(ops: GeometryOps, ix: Index, lines: seq<Segment>, profile: CutProfile)
    requires ValidIndex(ix)
    modifies profile
    ensures profile.pts == old(profile.pts) + TerrainPoints(ops, ix, lines)
    ensures profile.hasBuilding == old(profile.hasBuilding) && profile.hasTopography == old(profile.hasTopography)
    ensures profile.hasGroundEffect == old(profile.hasGroundEffect)
    ensures profile.source == old(profile.source) && profile.receiver == old(profile.receiver)
  {
    if ix.topoTree.Some? {
      var topoCutPts := TerrainCutPoints(ops, lines, ix.vertices, ix.triangles, ix.topoTree.value);
      var kept := DedupTerrain(topoCutPts);
      AddEach(profile, kept);
    }
  }

  /**
   * The first half of getProfile: a new profile holding the source, the
   * wall points, the terrain points and the receiver, in that order.
   */
  method CollectCuts(ops: GeometryOps, ix: Index, c0: Coord, c1: Coord) returns (profile: CutProfile)
    requires ValidIndex(ix) && TerrainHeightsAvailable(ix)
    ensures fresh(profile)
    ensures profile.pts == Cuts(ops, ix, c0, c1) && profile.source == Some(SourcePoint(c0))
    ensures var full := Segment(c0, c1);
      var found := WallPoints(ops, ix, full, Pieces(ops, full, ix.maxLineLength));
      profile.hasBuilding == HasKind(found, BuildingCut) && profile.hasGroundEffect == HasKind(found, GroundEffectCut)
    ensures !profile.hasTopography
  {
    profile := new CutProfile();
    profile.AddSource(c0);
    assert profile.pts == [SourcePoint(c0)];
    var full := Segment(c0, c1);
    var lines := SplitLine(ops, full, ix.maxLineLength);
    AddWallCutPoints(ops, ix, full, lines, profile);
    AddTerrainCutPoints(ops, ix, lines, profile);
    profile.AddReceiver(c1);
    assert profile.pts == [SourcePoint(c0)] + WallPoints(ops, ix, full, lines) + TerrainPoints(ops, ix, lines) + [ReceiverPoint(c1)];
  }

  /**
   * The second half of getProfile: the points sorted, turned to start at
   * the source, and given their ground coefficients by the walk from the
   * area holding the source; the flags are kept.
   */
  method OrderAndGround(ops: GeometryOps, ix: Index, c0: Coord, c1: Coord, profile: CutProfile)
    requires ValidIndex(ix)
    requires profile.pts == Cuts(ops, ix, c0, c1) && profile.source == Some(SourcePoint(c0))
    modifies profile
    ensures profile.pts == ProfilePoints(ops, ix, c0, c1)
    ensures profile.source == FirstOfKind(profile.pts, SourceCut)
    ensures profile.receiver == FirstOfKind(profile.pts, ReceiverCut)
    ensures profile.hasBuilding == old(profile.hasBuilding) && profile.hasTopography == old(profile.hasTopography)
    ensures profile.hasGroundEffect == old(profile.hasGroundEffect)
  {
    OrderPoints(profile);
    assert profile.pts == Ordered(ops, ix, c0, c1);
    OrderedGroundIds(ops, ix, c0, c1);
    var currentGround := InitialGround(ops, ix.grounds, c0);
    GroundPoints(ix.grounds, currentGround, profile);
  }

  /** The profile's points sorted, then reversed when the sort does not put the source first. */
  method OrderPoints(profile: CutProfile)
    requires profile.pts != [] && profile.source.Some?
    modifies profile
    ensures profile.pts == Oriented(SortByCompare(old(profile.pts)), old(profile.source.value))
    ensures profile.source == old(profile.source) && profile.receiver == old(profile.receiver)
    ensures profile.hasBuilding == old(profile.hasBuilding) && profile.hasTopography == old(profile.hasTopography)
    ensures profile.hasGroundEffect == old(profile.hasGroundEffect)
  {
    profile.Sort();
    if profile.pts[0] != profile.source.value {
      profile.Reverse();
    }
  }

  /**
   * The ground walk of getProfile: every point given the coefficient of
   * the area the walk is in after it; the source and receiver are then the
   * updated points.
   */
  method GroundPoints(ges: seq<GroundEffect>, init: Option<int>, profile: CutProfile)
    requires StateBelow(init, |ges|) && GroundIdsBelow(profile.pts, |ges|)
    modifies profile
    ensures profile.pts == Grounded(ges, init, old(profile.pts))
    ensures profile.source == FirstOfKind(profile.pts, SourceCut)
    ensures profile.receiver == FirstOfKind(profile.pts, ReceiverCut)
    ensures profile.hasBuilding == old(profile.hasBuilding) && profile.hasTopography == old(profile.hasTopography)
    ensures profile.hasGroundEffect == old(profile.hasGroundEffect)
  {
    var out := PropagateGround(ges, init, profile.pts);
    profile.pts := out;
    profile.source := FirstOfKind(out, SourceCut);
    profile.receiver := FirstOfKind(out, ReceiverCut);
  }

  /**
   * The body of the wall loop of getProfile: where the whole line crosses
   * the wall, the crossing point, with its height interpolated along the
   * wall or read from the terrain, is added as a building or ground point.
   */
  method AddWallCut(ops: GeometryOps, full: Segment, facetLine: Wall, ghost terrainFound: bool, profile: CutProfile)
    requires terrainFound || HasHeights(facetLine)
    modifies profile
    ensures var found := Found(WallCut(ops, full, facetLine));
      && profile.pts == old(profile.pts) + found
      && profile.hasBuilding == (old(profile.hasBuilding) || HasKind(found, BuildingCut))
      && profile.hasGroundEffect == (old(profile.hasGroundEffect) || HasKind(found, GroundEffectCut))
    ensures profile.hasTopography == old(profile.hasTopography)
    ensures profile.source == old(profile.source) && profile.receiver == old(profile.receiver)
  {
    var intersection := ops.intersection(full, facetLine.line);
    if intersection.Some? {
      var at := intersection.value;
      var z := if facetLine.line.p0.z.Some? && facetLine.line.p1.z.Some?
               then ops.interpolateZ(at, facetLine.line.p0, facetLine.line.p1)
               else ops.topoZ(at);
      var c := Coord(at.x, at.y, z);
      if facetLine.kind == BuildingCut {
        profile.AddBuildingCutPt(c, facetLine.originId);
        assert NewCutPoint(c, BuildingCut, facetLine.originId) in [NewCutPoint(c, BuildingCut, facetLine.originId)];
      } else if facetLine.kind == GroundEffectCut {
        profile.AddGroundCutPt(c, facetLine.originId);
        assert NewCutPoint(c, GroundEffectCut, facetLine.originId) in [NewCutPoint(c, GroundEffectCut, facetLine.originId)];
      }
    }
  }

  /** The wall loop of getProfile: each wall named by indexes, in order, crossed with the whole line. */
  method AddWallCuts(ops: GeometryOps, full: Segment, walls: seq<Wall>, indexes: seq<int>, ghost terrainFound: bool, profile: CutProfile)
    requires IndexesBelow(indexes, |walls|)
    requires terrainFound || forall w :: w in walls ==> HasHeights(w)
    modifies profile
    ensures profile.pts == old(profile.pts) + WallCuts(ops, full, walls, indexes)
    ensures profile.hasBuilding == (old(profile.hasBuilding) || HasKind(WallCuts(ops, full, walls, indexes), BuildingCut))
    ensures profile.hasGroundEffect == (old(profile.hasGroundEffect) || HasKind(WallCuts(ops, full, walls, indexes), GroundEffectCut))
    ensures profile.hasTopography == old(profile.hasTopography)
    ensures profile.source == old(profile.source) && profile.receiver == old(profile.receiver)
  {
    for k := 0 to |indexes|
      invariant IndexesBelow(indexes[..k], |walls|)
      invariant profile.pts == old(profile.pts) + WallCuts(ops, full, walls, indexes[..k])
      invariant profile.hasBuilding == (old(profile.hasBuilding) || HasKind(WallCuts(ops, full, walls, indexes[..k]), BuildingCut))
      invariant profile.hasGroundEffect == (old(profile.hasGroundEffect) || HasKind(WallCuts(ops, full, walls, indexes[..k]), GroundEffectCut))
      invariant profile.hasTopography == old(profile.hasTopography)
      invariant profile.source == old(profile.source) && profile.receiver == old(profile.receiver)
    {
      var i := indexes[k];
      assert i in indexes;
      WallCutsStep(ops, full, walls, indexes, k);
      AddWallCut(ops, full, walls[i], terrainFound, profile);
    }
    assert indexes[..|indexes|] == indexes;
  }

  /** One more turn of the wall loop: the wall's point, if any, is appended, and so is its kind. */
  lemma WallCutsStep(ops: GeometryOps, full: Segment, walls: seq<Wall>, indexes: seq<int>, k: int)
    requires IndexesBelow(indexes, |walls|) && 0 <= k < |indexes|
    ensures 0 <= indexes[k] < |walls|
    ensures IndexesBelow(indexes[..k], |walls|) && IndexesBelow(indexes[..k + 1], |walls|)
    ensures WallCuts(ops, full, walls, indexes[..k + 1])
         == WallCuts(ops, full, walls, indexes[..k]) + Found(WallCut(ops, full, walls[indexes[k]]))
    ensures forall kind :: HasKind(WallCuts(ops, full, walls, indexes[..k + 1]), kind) <==>
      HasKind(WallCuts(ops, full, walls, indexes[..k]), kind) || HasKind(Found(WallCut(ops, full, walls[indexes[k]])), kind)
  {
    assert indexes[k] in indexes;
    var next := indexes[..k + 1];
    assert forall x :: x in next ==> x in indexes;
    assert forall x :: x in indexes[..k] ==> x in indexes;
    assert next[..|next| - 1] == indexes[..k] && next[|next| - 1] == indexes[k];
    HasKindAppend(WallCuts(ops, full, walls, indexes[..k]), Found(WallCut(ops, full, walls[indexes[k]])));
  }

  /** List.forEach(profile::addCutPt): every point appended in order; no flag is set. */
  method AddEach(profile: CutProfile, ps: seq<CutPoint>)
    modifies profile
    ensures profile.pts == old(profile.pts) + ps
    ensures profile.hasBuilding == old(profile.hasBuilding) && profile.hasTopography == old(profile.hasTopography)
    ensures profile.hasGroundEffect == old(profile.hasGroundEffect)
    ensures profile.source == old(profile.source) && profile.receiver == old(profile.receiver)
  {
    for k := 0 to |ps|
      invariant profile.pts == old(profile.pts) + ps[..k]
      invariant profile.hasBuilding == old(profile.hasBuilding) && profile.hasTopography == old(profile.hasTopography)
      invariant profile.hasGroundEffect == old(profile.hasGroundEffect)
      invariant profile.source == old(profile.source) && profile.receiver == old(profile.receiver)
    {
      assert ps[..k + 1] == ps[..k] + [ps[k]];
      profile.AddCutPt(ps[k]);
    }
    assert ps[..|ps|] == ps;
  }

  /** A kind occurs in a concatenation exactly when it occurs in one part. */
  lemma HasKindAppend(a: seq<CutPoint>, b: seq<CutPoint>)
    ensures forall kind :: HasKind(a + b, kind) <==> HasKind(a, kind) || HasKind(b, kind)
  {
    forall kind
      ensures HasKind(a + b, kind) <==> HasKind(a, kind) || HasKind(b, kind)
    {
      if HasKind(a + b, kind) {
        var k :| 0 <= k < |a + b| && (a + b)[k].kind == kind;
        if k >= |a| {
          assert b[k - |a|] == (a + b)[k];
        }
      }
      if HasKind(a, kind) {
        var k :| 0 <= k < |a| && a[k].kind == kind;
        assert (a + b)[k] == a[k];
      }
      if HasKind(b, kind) {
        var k :| 0 <= k < |b| && b[k].kind == kind;
        assert (a + b)[|a| + k] == b[k];
      }
    }
  }

}
