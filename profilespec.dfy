/**
 * The profile a query returns, as one function of the builder's finished
 * state and the two end points: the source, the wall points, the terrain
 * points and the receiver, sorted, turned to start at the source, and
 * given their ground coefficients. The lemmas state what the profile holds.
 */
module ProfileSpec {
  import opened Geometry
  import opened Entities
  import opened SpatialIndex
  import opened Lists
  import opened Split
  import opened Profile
  import opened GroundWalk
  import opened ProfileQuery

  /** What a query reads of a builder whose feeding is finished. */
  datatype Index = Index(
    maxLineLength: real,
    walls: seq<Wall>,
    rtree: Option<seq<Entry>>,
    triangles: seq<Triangle>,
    vertices: seq<Coord>,
    topoTree: Option<seq<Entry>>,
    grounds: seq<GroundEffect>)

  predicate ValidIndex(ix: Index) {
    && ix.maxLineLength > 0.0
    && (ix.rtree.Some? ==> ItemsBelow(ix.rtree.value, |ix.walls|))
    && GroundWallsBelow(ix.walls, |ix.grounds|)
    && (ix.topoTree.Some? ==> MeshTree(ix.topoTree.value, ix.triangles, |ix.vertices|))
  }

  /**
   * What getProfile needs to give every wall crossing a height: either
   * every wall carries its own heights, or the terrain lookup has a
   * triangle to find (it widens its search box until the triangle tree
   * returns something, so it needs a tree holding at least one entry).
   */
  predicate TerrainHeightsAvailable(ix: Index) {
    (ix.topoTree.Some? && ix.topoTree.value != []) || forall w :: w in ix.walls ==> HasHeights(w)
  }

  /** Every item the wall tree returns for the pieces names a wall. */
  lemma HitsBelow(entries: seq<Entry>, lines: seq<Segment>, n: int)
    requires ItemsBelow(entries, n)
    ensures IndexesBelow(Distinct(AllHits(entries, lines)), n)
  {
    forall i | i in AllHits(entries, lines)
      ensures 0 <= i < n
    {
      assert HitBy(entries, lines, i);
    }
  }

  /** The wall points of a query: each wall whose box a piece meets, once, in the order first met. */
  function WallPoints(ops: GeometryOps, ix: Index, full: Segment, lines: seq<Segment>): seq<CutPoint>
    requires ValidIndex(ix)
  {
    if ix.rtree.None? then []
    else
      HitsBelow(ix.rtree.value, lines, |ix.walls|);
      WallCuts(ops, full, ix.walls, Distinct(AllHits(ix.rtree.value, lines)))
  }

  /** The terrain points of a query, once each planar position is kept only once. */
  function TerrainPoints(ops: GeometryOps, ix: Index, lines: seq<Segment>): seq<CutPoint>
    requires ValidIndex(ix)
  {
    if ix.topoTree.None? then []
    else KeepLast(TerrainCuts(ops, lines, ix.vertices, ix.triangles, ix.topoTree.value))
  }

  /** The points in the order the query adds them: source, walls, terrain, receiver. */
  function Cuts(ops: GeometryOps, ix: Index, c0: Coord, c1: Coord): seq<CutPoint>
    requires ValidIndex(ix)
  {
    var full := Segment(c0, c1);
    var lines := Pieces(ops, full, ix.maxLineLength);
    [SourcePoint(c0)] + WallPoints(ops, ix, full, lines) + TerrainPoints(ops, ix, lines) + [ReceiverPoint(c1)]
  }

  /** The points sorted, and reversed when the sort does not put the source first. */
  function Ordered(ops: GeometryOps, ix: Index, c0: Coord, c1: Coord): seq<CutPoint>
    requires ValidIndex(ix)
  {
    Oriented(SortByCompare(Cuts(ops, ix, c0, c1)), SourcePoint(c0))
  }

  /** The points of the profile getProfile returns. */
  function ProfilePoints(ops: GeometryOps, ix: Index, c0: Coord, c1: Coord): seq<CutPoint>
    requires ValidIndex(ix)
  {
    Grounded(ix.grounds, LastContaining(ops, ix.grounds, c0), Ordered(ops, ix, c0, c1))
  }

  /** A point without its ground coefficient. */
  function Strip(p: CutPoint): CutPoint {
    p.(groundCoef := None)
  }

  /** Some point of s is of the given kind. */
  predicate HasKind(s: seq<CutPoint>, kind: IntersectionType) {
    exists k :: 0 <= k < |s| && s[k].kind == kind
  }

  /** The first point of s of the given kind. */
  function FirstOfKind(s: seq<CutPoint>, kind: IntersectionType): (r: Option<CutPoint>)
    ensures r.Some? <==> HasKind(s, kind)
    ensures r.Some? ==> r.value in s && r.value.kind == kind
  {
    if s == [] then None
    else if s[0].kind == kind then Some(s[0])
    else
      assert forall p :: p in s ==> p == s[0] || p in s[1..];
      FirstOfKind(s[1..], kind)
  }

  /**
   * The points found between source and receiver: on a building, a ground
   * border or the terrain, with no coefficient yet and no enclosing
   * building, and naming one of n ground areas when on a ground border.
   */
  predicate Crossings(s: seq<CutPoint>, n: int) {
    forall p :: p in s ==>
      && (p.kind == BuildingCut || p.kind == GroundEffectCut || p.kind == TopographyCut)
      && p.groundCoef == None && p.buildingId == -1
      && (p.kind == GroundEffectCut ==> 0 <= p.id < n)
  }

  lemma CrossingsFound(ops: GeometryOps, ix: Index, c0: Coord, c1: Coord)
    requires ValidIndex(ix)
    ensures var full := Segment(c0, c1);
      var lines := Pieces(ops, full, ix.maxLineLength);
      && Crossings(WallPoints(ops, ix, full, lines), |ix.grounds|)
      && Crossings(TerrainPoints(ops, ix, lines), |ix.grounds|)
  {
    var full := Segment(c0, c1);
    var lines := Pieces(ops, full, ix.maxLineLength);
    if ix.rtree.Some? {
      HitsBelow(ix.rtree.value, lines, |ix.walls|);
      var idx := Distinct(AllHits(ix.rtree.value, lines));
      WallCutKinds(ops, full, ix.walls, idx, |ix.grounds|);
    }
    if ix.topoTree.Some? {
      var ts := TerrainCuts(ops, lines, ix.vertices, ix.triangles, ix.topoTree.value);
      forall p | p in KeepLast(ts)
        ensures p.kind == TopographyCut && p.groundCoef == None && p.buildingId == -1
      {
        var j :| 0 <= j < |ts| && j !in LaterTwins(ts) && ts[j] == p;
        assert ts[j] in ts;
      }
    }
  }

  /** No point has a ground coefficient yet. */
  predicate NoCoefs(s: seq<CutPoint>) {
    forall p :: p in s ==> p.groundCoef == None
  }

  /** x is the only point of s of the given kind. */
  predicate OnlyOfKind(s: seq<CutPoint>, kind: IntersectionType, x: CutPoint) {
    forall p :: p in s && p.kind == kind ==> p == x
  }

  /**
   * Only the first point added is the source and only the last the
   * receiver; no point has a coefficient yet, and every ground point names
   * a ground area.
   */
  lemma CutsFacts(ops: GeometryOps, ix: Index, c0: Coord, c1: Coord)
    requires ValidIndex(ix)
    ensures var a := Cuts(ops, ix, c0, c1);
      && |a| >= 2 && a[0] == SourcePoint(c0) && a[|a| - 1] == ReceiverPoint(c1)
      && NoCoefs(a)
      && OnlyOfKind(a, SourceCut, SourcePoint(c0))
      && OnlyOfKind(a, ReceiverCut, ReceiverPoint(c1))
      && GroundIdsBelow(a, |ix.grounds|)
  {
    CrossingsFound(ops, ix, c0, c1);
    var full := Segment(c0, c1);
    var lines := Pieces(ops, full, ix.maxLineLength);
    var ws, ts := WallPoints(ops, ix, full, lines), TerrainPoints(ops, ix, lines);
    var a := Cuts(ops, ix, c0, c1);
    assert a == [SourcePoint(c0)] + ws + ts + [ReceiverPoint(c1)];
    forall p | p in a
      ensures p == SourcePoint(c0) || p == ReceiverPoint(c1) || p in ws || p in ts
    {
    }
  }

  /** The walk's start and every point it meets name ground areas of the builder. */
  lemma OrderedGroundIds(ops: GeometryOps, ix: Index, c0: Coord, c1: Coord)
    requires ValidIndex(ix)
    ensures GroundIdsBelow(Ordered(ops, ix, c0, c1), |ix.grounds|)
    ensures StateBelow(LastContaining(ops, ix.grounds, c0), |ix.grounds|)
  {
    CutsFacts(ops, ix, c0, c1);
    var o := Ordered(ops, ix, c0, c1);
    assert multiset(o) == multiset(Cuts(ops, ix, c0, c1));
    forall p | p in o
      ensures p in Cuts(ops, ix, c0, c1)
    {
      assert p in multiset(o);
    }
  }

  /**
   * r holds the points of a with only their ground coefficients changed:
   * as many points, each one a point of a, and every point of a present.
   */
  predicate SameCuts(r: seq<CutPoint>, a: seq<CutPoint>) {
    && |r| == |a|
    && (forall k :: 0 <= k < |r| ==> Strip(r[k]) in a)
    && (forall p :: p in a ==> exists k :: 0 <= k < |r| && Strip(r[k]) == p)
  }

  /** Giving coefficients to a permutation of coefficient-free points changes nothing else. */
  lemma GroundedPermutation(ges: seq<GroundEffect>, init: Option<int>, o: seq<CutPoint>, a: seq<CutPoint>)
    requires multiset(o) == multiset(a) && NoCoefs(a)
    ensures SameCuts(Grounded(ges, init, o), a)
    ensures forall k :: 0 <= k < |o| ==> Strip(Grounded(ges, init, o)[k]) == o[k]
  {
    var r := Grounded(ges, init, o);
    assert |o| == |multiset(o)| == |a|;
    forall k | 0 <= k < |r|
      ensures Strip(r[k]) == o[k] && o[k] in a
    {
      assert o[k] in multiset(a);
    }
    forall p | p in a
      ensures exists k :: 0 <= k < |r| && Strip(r[k]) == p
    {
      assert p in multiset(o);
      var k :| 0 <= k < |o| && o[k] == p;
      assert Strip(r[k]) == p;
    }
  }

  /** The profile holds exactly the points the query found, each once, with only the ground coefficient changed. */
  lemma ProfileHoldsEveryCut(ops: GeometryOps, ix: Index, c0: Coord, c1: Coord)
    requires ValidIndex(ix)
    ensures SameCuts(ProfilePoints(ops, ix, c0, c1), Cuts(ops, ix, c0, c1))
  {
    CutsFacts(ops, ix, c0, c1);
    GroundedPermutation(ix.grounds, LastContaining(ops, ix.grounds, c0), Ordered(ops, ix, c0, c1), Cuts(ops, ix, c0, c1));
  }

  /**
   * Every crossing of a piece with an edge of a triangle its box query
   * returns is a terrain point of the query: the point kept for that
   * planar position, the last of its twins, lies at the same x and y.
   */
  lemma TerrainCrossingKept(ops: GeometryOps, ix: Index, lines: seq<Segment>, k: int, i: int, e: Segment)
    requires ValidIndex(ix) && ix.topoTree.Some?
    requires 0 <= k < |lines| && i in Distinct(Query(ix.topoTree.value, SegmentEnvelope(lines[k])))
    requires e in Edges(ix.vertices, ix.triangles[i]) && ops.intersection(lines[k], e).Some?
    ensures exists p :: p in TerrainPoints(ops, ix, lines) && SameXY(p.coord, ops.intersection(lines[k], e).value)
  {
    var cuts := TerrainCuts(ops, lines, ix.vertices, ix.triangles, ix.topoTree.value);
    TerrainCutsComplete(ops, lines, ix.vertices, ix.triangles, ix.topoTree.value, k, i, e);
    var j :| 0 <= j < |cuts| && cuts[j] == EdgeCut(ops, lines[k], e, i)[0];
    NothingLost(cuts, j);
  }

  /** Orienting a sorted list with the source at an end, then grounding it, starts at the source. */
  lemma StartsAt(ges: seq<GroundEffect>, init: Option<int>, s: seq<CutPoint>, src: CutPoint)
    requires AtAnEnd(s, src) && src.groundCoef == None
    ensures Strip(Grounded(ges, init, Oriented(s, src))[0]) == src
  {
  }

  /**
   * The profile starts at the source whenever the sort leaves the source
   * at either end; the sort does not promise that it does.
   */
  lemma ProfileStartsAtSource(ops: GeometryOps, ix: Index, c0: Coord, c1: Coord)
    requires ValidIndex(ix)
    ensures AtAnEnd(SortByCompare(Cuts(ops, ix, c0, c1)), SourcePoint(c0)) ==>
      Strip(ProfilePoints(ops, ix, c0, c1)[0]) == SourcePoint(c0)
  {
    var s := SortByCompare(Cuts(ops, ix, c0, c1));
    if AtAnEnd(s, SourcePoint(c0)) {
      StartsAt(ix.grounds, LastContaining(ops, ix.grounds, c0), s, SourcePoint(c0));
    }
  }

  /** When x is the only point of its kind among the found points, the first point of that kind in r is x. */
  lemma FirstOfKindIsOnly(r: seq<CutPoint>, a: seq<CutPoint>, kind: IntersectionType, x: CutPoint)
    requires SameCuts(r, a) && x in a && x.kind == kind && OnlyOfKind(a, kind, x)
    ensures FirstOfKind(r, kind).Some? && Strip(FirstOfKind(r, kind).value) == x
  {
    var k :| 0 <= k < |r| && Strip(r[k]) == x;
    assert r[k] in r && r[k].kind == kind;
    var v := FirstOfKind(r, kind).value;
    var i :| 0 <= i < |r| && r[i] == v;
    assert Strip(r[i]) in a;
  }

  /**
   * The profile has one source point and one receiver point, at the two
   * end coordinates; the first of each kind is that point with its
   * coefficient.
   */
  lemma ProfileSourceAndReceiver(ops: GeometryOps, ix: Index, c0: Coord, c1: Coord)
    requires ValidIndex(ix)
    ensures var r := ProfilePoints(ops, ix, c0, c1);
      && FirstOfKind(r, SourceCut).Some? && Strip(FirstOfKind(r, SourceCut).value) == SourcePoint(c0)
      && FirstOfKind(r, ReceiverCut).Some? && Strip(FirstOfKind(r, ReceiverCut).value) == ReceiverPoint(c1)
  {
    CutsFacts(ops, ix, c0, c1);
    ProfileHoldsEveryCut(ops, ix, c0, c1);
    var r, a := ProfilePoints(ops, ix, c0, c1), Cuts(ops, ix, c0, c1);
    assert a[0] in a && a[|a| - 1] in a;
    FirstOfKindIsOnly(r, a, SourceCut, SourcePoint(c0));
    FirstOfKindIsOnly(r, a, ReceiverCut, ReceiverPoint(c1));
  }

  lemma SortOne(p: CutPoint)
    ensures SortByCompare([p]) == [p]
  {
    assert [p][..0] == [];
  }

  lemma InsertOne(p: CutPoint, q: CutPoint)
    ensures Insert(p, [q]) == if Compare(p, q) < 0 then [p, q] else [q, p]
  {
    assert [q][1..] == [];
  }

  lemma ReverseTwo(p: CutPoint, q: CutPoint)
    ensures Reversed([p, q]) == [q, p]
  {
    assert [p, q][..1] == [p] && [p][..0] == [];
  }

  /** A source and a receiver alone are sorted and turned into source, receiver. */
  lemma OrderTwo(src: CutPoint, rcv: CutPoint)
    requires src.kind == SourceCut && rcv.kind == ReceiverCut
    ensures Oriented(SortByCompare([src, rcv]), src) == [src, rcv]
  {
    assert [src, rcv][..1] == [src];
    SortOne(src);
    InsertOne(rcv, src);
    ReverseTwo(rcv, src);
  }

  /** Two points off every border both get the coefficient of the start area. */
  lemma GroundTwo(ges: seq<GroundEffect>, init: Option<int>, src: CutPoint, rcv: CutPoint)
    requires src.kind == SourceCut && rcv.kind == ReceiverCut
    ensures Grounded(ges, init, [src, rcv])
         == [src.(groundCoef := CoefOf(ges, init)), rcv.(groundCoef := CoefOf(ges, init))]
  {
    NoCrossingKeepsSourceGround(ges, init, [src, rcv]);
  }

  /**
   * A line that meets no wall and no terrain gives the two-point profile
   * source, receiver, both with the coefficient of the area the source
   * lies in.
   */
  lemma DirectProfile(ops: GeometryOps, ix: Index, c0: Coord, c1: Coord)
    requires ValidIndex(ix)
    requires var full := Segment(c0, c1);
      var lines := Pieces(ops, full, ix.maxLineLength);
      WallPoints(ops, ix, full, lines) == [] && TerrainPoints(ops, ix, lines) == []
    ensures var g := CoefOf(ix.grounds, LastContaining(ops, ix.grounds, c0));
      ProfilePoints(ops, ix, c0, c1) == [SourcePoint(c0).(groundCoef := g), ReceiverPoint(c1).(groundCoef := g)]
  {
    assert Cuts(ops, ix, c0, c1) == [SourcePoint(c0), ReceiverPoint(c1)];
    OrderTwo(SourcePoint(c0), ReceiverPoint(c1));
    GroundTwo(ix.grounds, LastContaining(ops, ix.grounds, c0), SourcePoint(c0), ReceiverPoint(c1));
  }
}
