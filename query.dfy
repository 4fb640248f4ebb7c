/**
 * The middle stages of a profile query (ProfileBuilder.getProfile): the
 * walls and terrain triangles the pieces of the line meet, the crossing
 * points they yield, and the removal of terrain points that share a planar
 * position.
 */
module ProfileQuery {
  import opened Geometry
  import opened Entities
  import opened SpatialIndex
  import opened Lists
  import opened GroundWalk

  /** Every ground-effect wall names one of n ground effects. */
  predicate GroundWallsBelow(ws: seq<Wall>, n: int) {
    forall w :: w in ws && w.kind == GroundEffectCut ==> 0 <= w.originId < n
  }

  /** Every triangle names three of n vertices. */
  predicate MeshBelow(tris: seq<Triangle>, n: int) {
    forall t :: t in tris ==> TriangleIn(t, n)
  }

  // ---------------------------------------------------------------------
  // Walls: buildings and ground-effect areas
  // ---------------------------------------------------------------------

  /** Some piece's box meets the box of an entry holding item i. */
  predicate HitBy(entries: seq<Entry>, lines: seq<Segment>, i: int) {
    exists k, e :: 0 <= k < |lines| && e in entries && e.item == i && Intersects(e.env, SegmentEnvelope(lines[k]))
  }

  /** The items the tree returns for each piece, piece after piece. */
  function AllHits(entries: seq<Entry>, lines: seq<Segment>): (r: seq<int>)
    ensures forall i :: i in r <==> HitBy(entries, lines, i)
  {
    if lines == [] then []
    else
      var p, l := lines[..|lines| - 1], lines[|lines| - 1];
      var r := AllHits(entries, p) + Query(entries, SegmentEnvelope(l));
      assert forall i :: i in r <==> HitBy(entries, lines, i) by {
        forall i
          ensures i in r <==> HitBy(entries, lines, i)
        {
          if HitBy(entries, lines, i) {
            var k, e :| 0 <= k < |lines| && e in entries && e.item == i && Intersects(e.env, SegmentEnvelope(lines[k]));
            if k < |p| {
              assert p[k] == lines[k];
              assert HitBy(entries, p, i);
            }
          }
          if HitBy(entries, p, i) {
            var k, e :| 0 <= k < |p| && e in entries && e.item == i && Intersects(e.env, SegmentEnvelope(p[k]));
            assert p[k] == lines[k];
          }
        }
      }
      r
  }

  /** The loop that queries the wall tree with the box of every piece. */
  method CollectHits(entries: seq<Entry>, lines: seq<Segment>) returns (hits: seq<int>)
    ensures hits == AllHits(entries, lines)
  {
    hits := [];
    for k := 0 to |lines|
      invariant hits == AllHits(entries, lines[..k])
    {
      assert lines[..k + 1][..k] == lines[..k];
      hits := hits + Query(entries, SegmentEnvelope(lines[k]));
    }
    assert lines[..|lines|] == lines;
  }

  /** Both ends of the wall carry a height, so a crossing with it needs no terrain height. */
  predicate HasHeights(w: Wall) {
    w.line.p0.z.Some? && w.line.p1.z.Some?
  }

  /**
   * The point where the whole source-receiver line crosses a building or
   * ground-effect wall. Its height is interpolated along the wall when both
   * wall ends have one, and read from the terrain otherwise; either can be
   * missing. Terrain walls yield no point.
   */
  function WallCut(ops: GeometryOps, full: Segment, w: Wall): (r: Option<CutPoint>)
    ensures r.Some? <==> (w.kind == BuildingCut || w.kind == GroundEffectCut) && ops.intersection(full, w.line).Some?
    ensures r.Some? ==>
      && r.value.kind == w.kind && r.value.id == w.originId
      && r.value.buildingId == -1 && r.value.groundCoef == None
      && SameXY(r.value.coord, ops.intersection(full, w.line).value)
    ensures r.Some? && HasHeights(w) ==>
      r.value.coord.z == ops.interpolateZ(ops.intersection(full, w.line).value, w.line.p0, w.line.p1)
    ensures r.Some? && !HasHeights(w) ==> r.value.coord.z == ops.topoZ(ops.intersection(full, w.line).value)
  {
    match ops.intersection(full, w.line)
    case None => None
    case Some(at) =>
      var z := if w.line.p0.z.Some? && w.line.p1.z.Some? then ops.interpolateZ(at, w.line.p0, w.line.p1)
               else ops.topoZ(at);
      if w.kind == BuildingCut || w.kind == GroundEffectCut then
        Some(NewCutPoint(Coord(at.x, at.y, z), w.kind, w.originId))
      else None
  }

  predicate IndexesBelow(idx: seq<int>, n: int) {
    forall i :: i in idx ==> 0 <= i < n
  }

  /** A point that may be missing, as a list of none or one. */
  function Found(o: Option<CutPoint>): seq<CutPoint> {
    match o
    case Some(c) => [c]
    case None => []
  }

  /** The points the walls named by idx yield, in the order of idx, at most one per wall. */
  function WallCuts(ops: GeometryOps, full: Segment, walls: seq<Wall>, idx: seq<int>): (r: seq<CutPoint>)
    requires IndexesBelow(idx, |walls|)
    ensures |r| <= |idx|
  {
    if idx == [] then []
    else
      var p, i := idx[..|idx| - 1], idx[|idx| - 1];
      assert idx == p + [i] && i in idx;
      assert forall x :: x in p ==> x in idx;
      WallCuts(ops, full, walls, p) + Found(WallCut(ops, full, walls[i]))
  }

  /**
   * Each wall point comes from one of the walls named by idx, and every
   * one of those walls the line crosses yields its point.
   */
  lemma {:induction false} WallCutsFrom(ops: GeometryOps, full: Segment, walls: seq<Wall>, idx: seq<int>)
    requires IndexesBelow(idx, |walls|)
    ensures forall p :: p in WallCuts(ops, full, walls, idx) ==> exists i :: i in idx && WallCut(ops, full, walls[i]) == Some(p)
    ensures forall i :: i in idx && WallCut(ops, full, walls[i]).Some? ==> WallCut(ops, full, walls[i]).value in WallCuts(ops, full, walls, idx)
  {
    if idx != [] {
      var p, i := idx[..|idx| - 1], idx[|idx| - 1];
      assert idx == p + [i];
      assert forall x :: x in p ==> x in idx;
      WallCutsFrom(ops, full, walls, p);
    }
  }

  /**
   * Wall points lie on buildings or ground areas, have no coefficient and
   * no enclosing building yet, and a ground point names a known ground area.
   */
  lemma WallCutKinds(ops: GeometryOps, full: Segment, walls: seq<Wall>, idx: seq<int>, n: int)
    requires IndexesBelow(idx, |walls|) && GroundWallsBelow(walls, n)
    ensures forall p :: p in WallCuts(ops, full, walls, idx) ==>
      && (p.kind == BuildingCut || p.kind == GroundEffectCut)
      && p.groundCoef == None && p.buildingId == -1
    ensures GroundIdsBelow(WallCuts(ops, full, walls, idx), n)
  {
    WallCutsFrom(ops, full, walls, idx);
    forall p | p in WallCuts(ops, full, walls, idx)
      ensures p.kind == BuildingCut || p.kind == GroundEffectCut
      ensures p.groundCoef == None && p.buildingId == -1
      ensures p.kind == GroundEffectCut ==> 0 <= p.id < n
    {
      var i :| i in idx && WallCut(ops, full, walls[i]) == Some(p);
      assert walls[i] in walls;
    }
  }

  // ---------------------------------------------------------------------
  // Terrain
  // ---------------------------------------------------------------------

  /** The height at fraction f of the edge from a to b; none when an end has none. */
  function EdgeZ(a: Coord, b: Coord, f: real): (z: Option<real>)
    ensures z.Some? <==> a.z.Some? && b.z.Some?
    ensures z.Some? && f == 0.0 ==> z.value == a.z.value
    ensures z.Some? && f == 1.0 ==> z.value == b.z.value
  {
    if a.z.Some? && b.z.Some? then Some(a.z.value + (b.z.value - a.z.value) * f) else None
  }

  /** The three edges of triangle t: AB, BC and CA. */
  function Edges(vs: seq<Coord>, t: Triangle): seq<Segment>
    requires TriangleIn(t, |vs|)
  {
    [Segment(vs[t.a], vs[t.b]), Segment(vs[t.b], vs[t.c]), Segment(vs[t.c], vs[t.a])]
  }

  /** The piece crosses an edge of triangle t at the planar position of c. */
  predicate Crosses(ops: GeometryOps, line: Segment, vs: seq<Coord>, t: Triangle, c: Coord)
    requires TriangleIn(t, |vs|)
  {
    exists e :: e in Edges(vs, t) && ops.intersection(line, e).Some? && SameXY(ops.intersection(line, e).value, c)
  }

  /** The point where the piece crosses one edge of triangle number t, if it does. */
  function EdgeCut(ops: GeometryOps, line: Segment, edge: Segment, t: int): (r: seq<CutPoint>)
    ensures |r| <= 1
    ensures r != [] <==> ops.intersection(line, edge).Some?
    ensures r != [] ==>
      && r[0].kind == TopographyCut && r[0].id == t
      && r[0].buildingId == -1 && r[0].groundCoef == None
      && SameXY(r[0].coord, ops.intersection(line, edge).value)
      && (r[0].coord.z.Some? <==> edge.p0.z.Some? && edge.p1.z.Some?)
  {
    match ops.intersection(line, edge)
    case None => []
    case Some(at) =>
      [NewCutPoint(Coord(at.x, at.y, EdgeZ(edge.p0, edge.p1, ops.segmentFraction(edge, at))), TopographyCut, t)]
  }

  /** Every id in idx names a triangle whose corners are among nv vertices. */
  predicate MeshIndexes(idx: seq<int>, tris: seq<Triangle>, nv: int) {
    forall i :: i in idx ==> 0 <= i < |tris| && TriangleIn(tris[i], nv)
  }

  /** Every item of a triangle tree names a triangle whose corners are among nv vertices. */
  predicate MeshTree(entries: seq<Entry>, tris: seq<Triangle>, nv: int) {
    forall e :: e in entries ==> 0 <= e.item < |tris| && TriangleIn(tris[e.item], nv)
  }

  lemma MeshQuery(entries: seq<Entry>, search: Envelope, tris: seq<Triangle>, nv: int)
    requires MeshTree(entries, tris, nv)
    ensures MeshIndexes(Distinct(Query(entries, search)), tris, nv)
  {
  }

  lemma MeshPrefix(idx: seq<int>, j: int, tris: seq<Triangle>, nv: int)
    requires MeshIndexes(idx, tris, nv) && 0 <= j <= |idx|
    ensures MeshIndexes(idx[..j], tris, nv)
  {
    forall x | x in idx[..j]
      ensures 0 <= x < |tris| && TriangleIn(tris[x], nv)
    {
      var m :| 0 <= m < j && idx[..j][m] == x;
      assert idx[m] in idx;
    }
  }

  /** A terrain point from triangle ids: it names one of them and lies where the piece crosses its edges. */
  predicate TerrainPointOf(ops: GeometryOps, line: Segment, vs: seq<Coord>, tris: seq<Triangle>, idx: seq<int>, p: CutPoint)
    requires MeshIndexes(idx, tris, |vs|)
  {
    && p.kind == TopographyCut && p.buildingId == -1 && p.groundCoef == None
    && p.id in idx
    && Crosses(ops, line, vs, tris[p.id], p.coord)
  }

  /** The crossings of one piece with the edges of the triangles idx names, edge AB, BC, CA of each in turn. */
  function TriangleCuts(ops: GeometryOps, line: Segment, vs: seq<Coord>, tris: seq<Triangle>, idx: seq<int>): (r: seq<CutPoint>)
    requires MeshIndexes(idx, tris, |vs|)
    ensures |r| <= 3 * |idx|
    ensures forall p :: p in r ==> TerrainPointOf(ops, line, vs, tris, idx, p)
  {
    if idx == [] then []
    else
      var p, i := idx[..|idx| - 1], idx[|idx| - 1];
      assert idx == p + [i] && i in idx;
      assert forall x :: x in p ==> x in idx;
      var es := Edges(vs, tris[i]);
      var r := TriangleCuts(ops, line, vs, tris, p)
        + EdgeCut(ops, line, es[0], i) + EdgeCut(ops, line, es[1], i) + EdgeCut(ops, line, es[2], i);
      assert forall q :: q in r ==> TerrainPointOf(ops, line, vs, tris, idx, q) by {
        forall q | q in r
          ensures TerrainPointOf(ops, line, vs, tris, idx, q)
        {
          if q in TriangleCuts(ops, line, vs, tris, p) {
            assert TerrainPointOf(ops, line, vs, tris, p, q);
          } else if q in EdgeCut(ops, line, es[0], i) {
            assert es[0] in es;
          } else if q in EdgeCut(ops, line, es[1], i) {
            assert es[1] in es;
          } else {
            assert es[2] in es;
          }
        }
      }
      r
  }

  /** A terrain point of the whole profile: a point of some piece. */
  predicate TerrainPoint(ops: GeometryOps, lines: seq<Segment>, vs: seq<Coord>, tris: seq<Triangle>, p: CutPoint) {
    && p.kind == TopographyCut && p.buildingId == -1 && p.groundCoef == None
    && 0 <= p.id < |tris| && TriangleIn(tris[p.id], |vs|)
    && exists k :: 0 <= k < |lines| && Crosses(ops, lines[k], vs, tris[p.id], p.coord)
  }

  /**
   * The terrain points of all pieces, piece after piece; each piece queries
   * the triangle tree with its own box and drops repeated triangle ids.
   */
  function TerrainCuts(ops: GeometryOps, lines: seq<Segment>, vs: seq<Coord>, tris: seq<Triangle>, entries: seq<Entry>): (r: seq<CutPoint>)
    requires MeshTree(entries, tris, |vs|)
    ensures forall p :: p in r ==> TerrainPoint(ops, lines, vs, tris, p)
  {
    if lines == [] then []
    else
      var p, l := lines[..|lines| - 1], lines[|lines| - 1];
      var idx := Distinct(Query(entries, SegmentEnvelope(l)));
      MeshQuery(entries, SegmentEnvelope(l), tris, |vs|);
      var r := TerrainCuts(ops, p, vs, tris, entries) + TriangleCuts(ops, l, vs, tris, idx);
      assert forall q :: q in r ==> TerrainPoint(ops, lines, vs, tris, q) by {
        forall q | q in r
          ensures TerrainPoint(ops, lines, vs, tris, q)
        {
          if q in TerrainCuts(ops, p, vs, tris, entries) {
            var k :| 0 <= k < |p| && Crosses(ops, p[k], vs, tris[q.id], q.coord);
            assert p[k] == lines[k];
          } else {
            assert TerrainPointOf(ops, l, vs, tris, idx, q);
            assert lines[|lines| - 1] == l;
          }
        }
      }
      r
  }

  /**
   * Nothing is missed by the inner loop: wherever the piece crosses an
   * edge of a triangle idx names, that crossing is among its points.
   */
  lemma {:induction false} TriangleCutsComplete(ops: GeometryOps, line: Segment, vs: seq<Coord>, tris: seq<Triangle>, idx: seq<int>,
                                                i: int, e: Segment)
    requires MeshIndexes(idx, tris, |vs|)
    requires i in idx && e in Edges(vs, tris[i]) && ops.intersection(line, e).Some?
    ensures EdgeCut(ops, line, e, i)[0] in TriangleCuts(ops, line, vs, tris, idx)
    decreases |idx|
  {
    var p, last := idx[..|idx| - 1], idx[|idx| - 1];
    assert idx == p + [last];
    assert forall x :: x in p ==> x in idx;
    if i != last {
      assert i in p;
      TriangleCutsComplete(ops, line, vs, tris, p, i, e);
    }
  }

  /**
   * Nothing is missed by the loop over the pieces: wherever a piece
   * crosses an edge of a triangle its box query returns, that crossing is
   * among the terrain points.
   */
  lemma {:induction false} TerrainCutsComplete(ops: GeometryOps, lines: seq<Segment>, vs: seq<Coord>, tris: seq<Triangle>,
                                               entries: seq<Entry>, k: int, i: int, e: Segment)
    requires MeshTree(entries, tris, |vs|)
    requires 0 <= k < |lines| && i in Distinct(Query(entries, SegmentEnvelope(lines[k])))
    requires e in Edges(vs, tris[i]) && ops.intersection(lines[k], e).Some?
    ensures EdgeCut(ops, lines[k], e, i)[0] in TerrainCuts(ops, lines, vs, tris, entries)
    decreases |lines|
  {
    var p, l := lines[..|lines| - 1], lines[|lines| - 1];
    var idx := Distinct(Query(entries, SegmentEnvelope(l)));
    MeshQuery(entries, SegmentEnvelope(l), tris, |vs|);
    if k == |lines| - 1 {
      TriangleCutsComplete(ops, l, vs, tris, idx, i, e);
    } else {
      assert p[k] == lines[k];
      TerrainCutsComplete(ops, p, vs, tris, entries, k, i, e);
    }
  }

  /** The inner loop: the edges AB, BC and CA of each triangle idx names, crossed with one piece. */
  method TriangleCutPoints(ops: GeometryOps, line: Segment, vs: seq<Coord>, tris: seq<Triangle>, idx: seq<int>)
    returns (pts: seq<CutPoint>)
    requires MeshIndexes(idx, tris, |vs|)
    ensures pts == TriangleCuts(ops, line, vs, tris, idx)
  {
    pts := [];
    for j := 0 to |idx|
      invariant MeshIndexes(idx[..j], tris, |vs|)
      invariant pts == TriangleCuts(ops, line, vs, tris, idx[..j])
    {
      var i := idx[j];
      assert i in idx;
      var t := tris[i];
      var ab := EdgeCut(ops, line, Segment(vs[t.a], vs[t.b]), i);
      var bc := EdgeCut(ops, line, Segment(vs[t.b], vs[t.c]), i);
      var ca := EdgeCut(ops, line, Segment(vs[t.c], vs[t.a]), i);
      assert idx[..j + 1][..j] == idx[..j] && idx[..j + 1][j] == i;
      MeshPrefix(idx, j + 1, tris, |vs|);
      pts := pts + ab + bc + ca;
    }
    assert idx[..|idx|] == idx;
  }

  /** The loop over the pieces: each queries the triangle tree with its box and drops repeated ids. */
  method TerrainCutPoints(ops: GeometryOps, lines: seq<Segment>, vs: seq<Coord>, tris: seq<Triangle>, entries: seq<Entry>)
    returns (pts: seq<CutPoint>)
    requires MeshTree(entries, tris, |vs|)
    ensures pts == TerrainCuts(ops, lines, vs, tris, entries)
  {
    pts := [];
    for k := 0 to |lines|
      invariant pts == TerrainCuts(ops, lines[..k], vs, tris, entries)
    {
      var line := lines[k];
      var idx := Distinct(Query(entries, SegmentEnvelope(line)));
      MeshQuery(entries, SegmentEnvelope(line), tris, |vs|);
      var cuts := TriangleCutPoints(ops, line, vs, tris, idx);
      assert lines[..k + 1][..k] == lines[..k] && lines[..k + 1][k] == line;
      pts := pts + cuts;
    }
    assert lines[..|lines|] == lines;
  }

  /** Point i shares its planar position with a point after it. */
  predicate HasLaterTwin(pts: seq<CutPoint>, i: int)
    requires 0 <= i < |pts|
  {
    exists j :: i < j < |pts| && SameXY(pts[i].coord, pts[j].coord)
  }

  function LaterTwins(pts: seq<CutPoint>): set<int> {
    set i | 0 <= i < |pts| && HasLaterTwin(pts, i)
  }

  /**
   * The terrain points after duplicates are removed: a point is dropped
   * when a later point has the same x and y, so of each group of points
   * sharing a planar position the last one is kept.
   */
  function KeepLast(pts: seq<CutPoint>): seq<CutPoint> {
    RemoveAt(pts, LaterTwins(pts), 0)
  }

  /** The duplicate-removal loops: mark each point with a later twin, then remove the marked ones. */
  method DedupTerrain(pts: seq<CutPoint>) returns (kept: seq<CutPoint>)
    ensures kept == KeepLast(pts)
  {
    var toRemove: set<int> := {};
    for i := 0 to |pts|
      invariant toRemove == set j | 0 <= j < i && HasLaterTwin(pts, j)
    {
      var found := false;
      var k := i + 1;
      while k < |pts| && !found
        invariant i + 1 <= k <= |pts|
        invariant found ==> HasLaterTwin(pts, i)
        invariant !found ==> forall m :: i < m < k ==> !SameXY(pts[i].coord, pts[m].coord)
        decreases |pts| - k, if found then 0 else 1
      {
        if pts[i].coord.x == pts[k].coord.x && pts[i].coord.y == pts[k].coord.y {
          found := true;
        } else {
          k := k + 1;
        }
      }
      if found {
        toRemove := toRemove + {i};
      }
    }
    kept := RemoveAt(pts, toRemove, 0);
  }

  /** No two kept points share a planar position. */
  lemma KeptApart(pts: seq<CutPoint>)
    ensures Apart(KeepLast(pts))
  {
    KeptApartFrom(pts, 0);
  }

  /** No two points of s share a planar position. */
  predicate Apart(s: seq<CutPoint>) {
    forall a, b :: 0 <= a < b < |s| ==> !SameXY(s[a].coord, s[b].coord)
  }

  lemma ConsApart(h: CutPoint, rest: seq<CutPoint>)
    requires Apart(rest)
    requires forall x :: x in rest ==> !SameXY(h.coord, x.coord)
    ensures Apart([h] + rest)
  {
    var r := [h] + rest;
    forall a, b | 0 <= a < b < |r|
      ensures !SameXY(r[a].coord, r[b].coord)
    {
      assert r[b] == rest[b - 1];
      if a > 0 {
        assert r[a] == rest[a - 1];
      }
    }
  }

  lemma {:induction false} KeptApartFrom(pts: seq<CutPoint>, at: nat)
    requires at <= |pts|
    ensures Apart(RemoveAt(pts, LaterTwins(pts), at))
    decreases |pts| - at
  {
    var g := LaterTwins(pts);
    if at < |pts| {
      KeptApartFrom(pts, at + 1);
      var rest := RemoveAt(pts, g, at + 1);
      if at !in g {
        assert !HasLaterTwin(pts, at);
        forall x | x in rest
          ensures !SameXY(pts[at].coord, x.coord)
        {
          var j :| at + 1 <= j < |pts| && j !in g && pts[j] == x;
        }
        ConsApart(pts[at], rest);
        assert RemoveAt(pts, g, at) == [pts[at]] + rest;
      } else {
        assert RemoveAt(pts, g, at) == rest;
      }
    }
  }

  /** Every terrain point has a kept point at the same planar position. */
  lemma {:induction false} NothingLost(pts: seq<CutPoint>, i: int)
    requires 0 <= i < |pts|
    ensures exists p :: p in KeepLast(pts) && SameXY(p.coord, pts[i].coord)
    decreases |pts| - i
  {
    if HasLaterTwin(pts, i) {
      var j :| i < j < |pts| && SameXY(pts[i].coord, pts[j].coord);
      NothingLost(pts, j);
    } else {
      assert i !in LaterTwins(pts);
      assert pts[i] in KeepLast(pts);
    }
  }
}
