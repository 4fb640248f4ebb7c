# ProfileBuilder model

This project models the scene builder and profile query of NoiseModelling's path finder, the
class `ProfileBuilder` with its nested classes `CutProfile`, `CutPoint`, `Building`, `Wall` and
`GroundEffect`. A builder is fed in a first phase. The `add*` methods collect buildings,
terrain points and lines, ground-effect areas, sources and receivers, and grow a global envelope.
`finishFeeding` then sets a one-way lock and indexes what was fed:

- a tree over the sources;
- one BUILDING wall per footprint side, in a new wall tree;
- the Delaunay mesh of the terrain and a tree over its triangles. The terrain sides are all
  removed as duplicates, so none becomes a wall;
- one GROUND_EFFECT wall per ground-polygon side, inserted into the wall tree.

`getProfile(c0, c1)` builds the cut profile between a source and a receiver in these steps:

1. It splits the line into pieces no longer than `maxLineLength` and queries both trees with
   each piece's box.
2. It crosses the whole line with every wall found. Terrain crossings are computed per piece,
   and of the terrain points that share x and y only the last is kept.
3. It assembles source, wall points, terrain points and receiver, in that order.
4. It sorts the points with `CutPoint.compareTo` and reverses them when the source is not first.
5. It walks the points with an enter/exit state machine that gives each point the ground
   coefficient of the area the line is in.

Modules, in dependency order:

- `Geometry`: coordinates, segments, envelopes and shapes. The geometry library's numerical
  primitives are the fields of a `GeometryOps` value passed in. They are segment length,
  pointAlong, segment intersection, interpolateZ, segmentFraction, polygon containment and
  the terrain height lookup `getTopoZ`.
- `Entities`: the value classes and `CutPoint.compareTo`.
- `Lists`: `Stream.distinct()` and `List.removeAll` by position.
- `SpatialIndex`: an STRtree as its list of (envelope, item) entries.
- `Split`: the splitting of the line into pieces.
- `Profile`: `CutProfile` as a class with the sort and the reversal.
- `GroundWalk`: the ground-coefficient walk.
- `ProfileQuery`: the wall and terrain stages of the query and the terrain deduplication.
- `ProfileSpec`: the profile `getProfile` returns, as one function `ProfilePoints` of the
  indexed data and the two end points, with the lemmas about what it holds.
- `Builder`: the `ProfileBuilder` class, with the feeding methods, `FinishFeeding` and
  `GetProfile`.

State-changing code is modelled as methods over the class fields or as loops with invariants.
Each is proved against a function of the inputs (`BuildingWalls`, `GroundWalls`, `Finished`,
`ProfilePoints`, `Grounded`, `KeepLast`, ...). The lemmas state what those functions promise.
The Delaunay triangulation is an outside step: `FinishFeeding` takes its outcome as a parameter
`mesh`, which is one of three cases:

- a failure before the triangles are fetched;
- a failure fetching the vertices after the triangles were stored;
- the triangles and their vertices.

Behaviour of the code worth knowing:

- the terrain-side deduplication removes every side, because each side is compared with a
  sublist that starts at itself, so no TOPOGRAPHY wall is ever added;
- building and ground points are added before terrain points;
- of the terrain points sharing x and y the last one is kept, because a point is dropped
  whenever a later point has its x and y;
- `addCutPt` does not set `hasTopography`, so a profile never reports terrain;
- `compareTo` is a partial, non-transitive ranking on x and y, not a projection along the
  line, so the sort does not always put the source at an end. The code itself allows for this:
  it reverses the list when the source is not first and logs an error when the source or the
  receiver is at neither end (ProfileBuilder.java:611-618). `ProfileSpec.ProfileStartsAtSource`
  states the condition under which the source comes first, and `Entities.CompareNotTransitive`
  shows the ranking cycle;
- the crossing point where the line leaves an area already gets NaN;
- nothing in `finishFeeding` stops a second call: it re-indexes and appends the walls a second
  time. When no building tree is rebuilt, the ground walls go into the existing wall tree, and
  the tree library refuses that once a query has built the tree (see "Left out").

## Model

| member | source | states |
|---|---|---|
| Geometry.ExpandToInclude | noisemodelling-pathfinder/src/main/java/org/noise_planet/noisemodelling/pathfinder/ProfileBuilder.java:130-135 | Growing an envelope gives a box that covers both envelopes. It is null only when both are null and stays well-formed. A null builder envelope simply takes the other one. |
| Geometry.ExpandIsLeast | noisemodelling-pathfinder/src/main/java/org/noise_planet/noisemodelling/pathfinder/ProfileBuilder.java:134 | Any box that covers both envelopes also covers their expansion, so the expansion is the least such box. |
| Geometry.EnvelopeOf | noisemodelling-pathfinder/src/main/java/org/noise_planet/noisemodelling/pathfinder/ProfileBuilder.java:131 | The envelope of a geometry's coordinates is well-formed. It is null exactly when there are no coordinates. |
| Geometry.EnvelopeOfCovers | noisemodelling-pathfinder/src/main/java/org/noise_planet/noisemodelling/pathfinder/ProfileBuilder.java:131 | The envelope of a coordinate list covers every one of its coordinates. |
| Geometry.SegmentEnvelope | noisemodelling-pathfinder/src/main/java/org/noise_planet/noisemodelling/pathfinder/ProfileBuilder.java:405 | The envelope of a wall segment is a well-formed box that covers both of its end points. |
| Geometry.SegmentEnvelopeOfEnds | noisemodelling-pathfinder/src/main/java/org/noise_planet/noisemodelling/pathfinder/ProfileBuilder.java:405 | The envelope of a segment's geometry equals the envelope of its two-point line string. |
| Entities.Compare | noisemodelling-pathfinder/src/main/java/org/noise_planet/noisemodelling/pathfinder/ProfileBuilder.java:925-935 | compareTo returns -1, 0 or 1. It returns 0 exactly when the two points share x and y. It returns 1 exactly when the other point is neither right of nor above this one and is not at the same position. |
| Entities.CompareFlip | noisemodelling-pathfinder/src/main/java/org/noise_planet/noisemodelling/pathfinder/ProfileBuilder.java:925-935 | When p ranks after q, q ranks before p. When p does not rank before q, q does not rank after p. |
| Entities.CompareNotAntisymmetric | noisemodelling-pathfinder/src/main/java/org/noise_planet/noisemodelling/pathfinder/ProfileBuilder.java:925-935 | There are two points that each rank before the other (one further right, the other further up). |
| Entities.CompareNotTransitive | noisemodelling-pathfinder/src/main/java/org/noise_planet/noisemodelling/pathfinder/ProfileBuilder.java:925-935 | There are three points that rank in a cycle. |
| Lists.Distinct | noisemodelling-pathfinder/src/main/java/org/noise_planet/noisemodelling/pathfinder/ProfileBuilder.java:542 | distinct() keeps exactly the elements of the list and has no repetitions. |
| Lists.DistinctKeepsFirstOccurrenceOrder | noisemodelling-pathfinder/src/main/java/org/noise_planet/noisemodelling/pathfinder/ProfileBuilder.java:542 | distinct() lists elements in the order of their first occurrences. |
| Lists.RemoveAt | noisemodelling-pathfinder/src/main/java/org/noise_planet/noisemodelling/pathfinder/ProfileBuilder.java:603 | removeAll over the marked positions keeps at most the remaining elements. Every kept element comes from an unmarked position, and every unmarked element is kept. |
| Lists.Unmarked | noisemodelling-pathfinder/src/main/java/org/noise_planet/noisemodelling/pathfinder/ProfileBuilder.java:591-603 | The unmarked positions from a start up to a bound are listed each once: every listed position is unmarked and in range, and every unmarked position in range is listed. |
| Lists.UnmarkedIncreasing | noisemodelling-pathfinder/src/main/java/org/noise_planet/noisemodelling/pathfinder/ProfileBuilder.java:591-603 | The unmarked positions are listed in increasing order. |
| Lists.RemoveAtKeepsOrder | noisemodelling-pathfinder/src/main/java/org/noise_planet/noisemodelling/pathfinder/ProfileBuilder.java:603 | removeAll over the marked positions keeps order and count: the result is exactly the elements at the unmarked positions, one per position, in position order. |
| SpatialIndex.Query | noisemodelling-pathfinder/src/main/java/org/noise_planet/noisemodelling/pathfinder/ProfileBuilder.java:540 | A tree query returns exactly the items of the entries whose box meets the search box. It returns no more items than there are entries. |
| Split.PieceCount | noisemodelling-pathfinder/src/main/java/org/noise_planet/noisemodelling/pathfinder/ProfileBuilder.java:532 | The number of turns of the split loop is at least 1. It is the least n with l / maxLineLength <= n. |
| Split.SplitLine | noisemodelling-pathfinder/src/main/java/org/noise_planet/noisemodelling/pathfinder/ProfileBuilder.java:523-535 | The split loop builds exactly Pieces: the whole line when it is shorter than maxLineLength; otherwise piece i runs from fraction i*frac to min((i+1)*frac, 1). |
| Split.PiecesTile | noisemodelling-pathfinder/src/main/java/org/noise_planet/noisemodelling/pathfinder/ProfileBuilder.java:531-533 | The split fractions tile [0, 1]. The first piece starts at 0 and each piece ends where the next one starts. The last piece ends at 1. Every piece is non-empty and no longer than frac. |
| Split.PiecesChain | noisemodelling-pathfinder/src/main/java/org/noise_planet/noisemodelling/pathfinder/ProfileBuilder.java:523-535 | A line shorter than maxLineLength is kept whole. Otherwise the pieces form a chain along the line: the first starts at fraction 0, consecutive pieces share end points, and the last ends at fraction 1. |
| Profile.Insert | noisemodelling-pathfinder/src/main/java/org/noise_planet/noisemodelling/pathfinder/ProfileBuilder.java:788 | One stable insertion step adds exactly the inserted point, as a multiset. The head of the result is the point or the old head. |
| Profile.InsertOrdered | noisemodelling-pathfinder/src/main/java/org/noise_planet/noisemodelling/pathfinder/ProfileBuilder.java:788 | Inserting into a list whose neighbours are ordered by compareTo keeps it ordered. |
| Profile.SortByCompare | noisemodelling-pathfinder/src/main/java/org/noise_planet/noisemodelling/pathfinder/ProfileBuilder.java:788 | The sort returns a permutation of the points in which each point ranks no later than the next. |
| Profile.Reversed | noisemodelling-pathfinder/src/main/java/org/noise_planet/noisemodelling/pathfinder/ProfileBuilder.java:803 | Collections.reverse puts point k at position n-1-k and keeps the same points. |
| Profile.Oriented | noisemodelling-pathfinder/src/main/java/org/noise_planet/noisemodelling/pathfinder/ProfileBuilder.java:612-619 | After the conditional reverse, the points are a permutation of the sorted points. They start at the source whenever the sort left the source at either end. |
| Profile.CutProfile.constructor | noisemodelling-pathfinder/src/main/java/org/noise_planet/noisemodelling/pathfinder/ProfileBuilder.java:674-686 | A new profile has no points, no source or receiver, and all three flags unset. |
| Profile.CutProfile.AddSource | noisemodelling-pathfinder/src/main/java/org/noise_planet/noisemodelling/pathfinder/ProfileBuilder.java:692-695 | addSource appends the source point and records it as the source. Nothing else changes. |
| Profile.CutProfile.AddReceiver | noisemodelling-pathfinder/src/main/java/org/noise_planet/noisemodelling/pathfinder/ProfileBuilder.java:701-704 | addReceiver appends the receiver point and records it as the receiver. Nothing else changes. |
| Profile.CutProfile.AddBuildingCutPt | noisemodelling-pathfinder/src/main/java/org/noise_planet/noisemodelling/pathfinder/ProfileBuilder.java:711-714 | Appends a BUILDING point with the given id and sets hasBuilding. Nothing else changes. |
| Profile.CutProfile.AddTopoCutPt | noisemodelling-pathfinder/src/main/java/org/noise_planet/noisemodelling/pathfinder/ProfileBuilder.java:721-724 | Appends a TOPOGRAPHY point with the given id and sets hasTopography. Nothing else changes. |
| Profile.CutProfile.AddGroundCutPt | noisemodelling-pathfinder/src/main/java/org/noise_planet/noisemodelling/pathfinder/ProfileBuilder.java:731-734 | Appends a GROUND_EFFECT point with the given id and sets hasGroundEffect. Nothing else changes. |
| Profile.CutProfile.AddCutPt | noisemodelling-pathfinder/src/main/java/org/noise_planet/noisemodelling/pathfinder/ProfileBuilder.java:795-797 | addCutPt appends the point and sets no flag. |
| Profile.CutProfile.Sort | noisemodelling-pathfinder/src/main/java/org/noise_planet/noisemodelling/pathfinder/ProfileBuilder.java:787-789 | sort replaces the points by their compareTo sort. Source, receiver and flags are kept. |
| Profile.CutProfile.Reverse | noisemodelling-pathfinder/src/main/java/org/noise_planet/noisemodelling/pathfinder/ProfileBuilder.java:802-804 | reverse replaces the points by their reversal. Source, receiver and flags are kept. |
| GroundWalk.LastContaining | noisemodelling-pathfinder/src/main/java/org/noise_planet/noisemodelling/pathfinder/ProfileBuilder.java:625-631 | The start area is the last ground effect that contains the source, with no later area containing it. It is none exactly when no area contains the source. |
| GroundWalk.InitialGround | noisemodelling-pathfinder/src/main/java/org/noise_planet/noisemodelling/pathfinder/ProfileBuilder.java:625-631 | The loop over the ground effects finds LastContaining. |
| GroundWalk.PropagateGround | noisemodelling-pathfinder/src/main/java/org/noise_planet/noisemodelling/pathfinder/ProfileBuilder.java:632-642 | The walk keeps every point and changes only its groundCoef. The coefficient is that of the area the state machine is in after the point: a GROUND_EFFECT point of the current area clears the state; one seen with no state sets it; anything else keeps it; no area gives NaN. |
| GroundWalk.StateAfterBelow | noisemodelling-pathfinder/src/main/java/org/noise_planet/noisemodelling/pathfinder/ProfileBuilder.java:632-640 | The walk's state always names an existing ground effect when the start and every crossed border do. |
| GroundWalk.StateSteady | noisemodelling-pathfinder/src/main/java/org/noise_planet/noisemodelling/pathfinder/ProfileBuilder.java:632-640 | Without a border crossing, the walk stays in the area it is in. |
| GroundWalk.NoCrossingKeepsSourceGround | noisemodelling-pathfinder/src/main/java/org/noise_planet/noisemodelling/pathfinder/ProfileBuilder.java:632-642 | A profile that crosses no border has the source area's coefficient at every point. |
| GroundWalk.LeavingOneArea | noisemodelling-pathfinder/src/main/java/org/noise_planet/noisemodelling/pathfinder/ProfileBuilder.java:632-642 | A source inside area r with one crossing, of r's border: the points before it get r's coefficient, and the crossing and all later points get NaN. |
| GroundWalk.EnteringOneArea | noisemodelling-pathfinder/src/main/java/org/noise_planet/noisemodelling/pathfinder/ProfileBuilder.java:632-642 | A source outside every area with one crossing, of area r's border: the points before it get NaN, and the crossing and all later points get r's coefficient. |
| GroundWalk.OneCrossing | noisemodelling-pathfinder/src/main/java/org/noise_planet/noisemodelling/pathfinder/ProfileBuilder.java:632-642 | With one crossing at e, points before e get the start area's coefficient. Points from e on get the coefficient of the state after that crossing. |
| ProfileQuery.AllHits | noisemodelling-pathfinder/src/main/java/org/noise_planet/noisemodelling/pathfinder/ProfileBuilder.java:538-541 | The collected indexes are exactly the items whose box meets the box of some piece. |
| ProfileQuery.CollectHits | noisemodelling-pathfinder/src/main/java/org/noise_planet/noisemodelling/pathfinder/ProfileBuilder.java:538-541 | The query loop over the pieces collects AllHits. |
| ProfileQuery.WallCut | noisemodelling-pathfinder/src/main/java/org/noise_planet/noisemodelling/pathfinder/ProfileBuilder.java:544-560 | A wall yields a point exactly when it is a BUILDING or GROUND_EFFECT wall that the full line crosses. The point has the wall's kind and originId, no building and no coefficient, and the crossing's x and y. Its height is the one interpolated along the wall when both ends have one, and the terrain height otherwise; either may be missing (NaN in the source). The methods that call it require that the terrain lookup can run (see `ProfileSpec.TerrainHeightsAvailable`). |
| ProfileQuery.WallCutsFrom | noisemodelling-pathfinder/src/main/java/org/noise_planet/noisemodelling/pathfinder/ProfileBuilder.java:543-561 | Every wall point comes from a wall the deduplicated indexes name. Every such wall that the full line crosses contributes its point. |
| ProfileQuery.WallCutKinds | noisemodelling-pathfinder/src/main/java/org/noise_planet/noisemodelling/pathfinder/ProfileBuilder.java:543-561 | Wall points are BUILDING or GROUND_EFFECT points with no coefficient and no building. A GROUND_EFFECT point names an existing ground effect. |
| ProfileQuery.EdgeZ | noisemodelling-pathfinder/src/main/java/org/noise_planet/noisemodelling/pathfinder/ProfileBuilder.java:574 | The edge height exists exactly when both edge ends have one. It equals the first end's height at fraction 0 and the second end's height at fraction 1. |
| ProfileQuery.EdgeCut | noisemodelling-pathfinder/src/main/java/org/noise_planet/noisemodelling/pathfinder/ProfileBuilder.java:571-576 | A triangle edge yields one TOPOGRAPHY point, tagged with the triangle id, exactly when the piece crosses it. The point lies at the crossing and has a height exactly when both edge ends do. |
| ProfileQuery.TriangleCuts | noisemodelling-pathfinder/src/main/java/org/noise_planet/noisemodelling/pathfinder/ProfileBuilder.java:569-589 | One piece against the named triangles yields at most three points per triangle. Each point lies on an edge of a named triangle. |
| ProfileQuery.TerrainCuts | noisemodelling-pathfinder/src/main/java/org/noise_planet/noisemodelling/pathfinder/ProfileBuilder.java:566-590 | Every terrain point lies where some piece crosses an edge of a valid triangle. It has no coefficient and no building. |
| ProfileQuery.TriangleCutsComplete | noisemodelling-pathfinder/src/main/java/org/noise_planet/noisemodelling/pathfinder/ProfileBuilder.java:569-589 | Nothing is missed by the inner loop: wherever the piece crosses an edge of a named triangle, that crossing point is among the piece's terrain points. |
| ProfileQuery.TerrainCutsComplete | noisemodelling-pathfinder/src/main/java/org/noise_planet/noisemodelling/pathfinder/ProfileBuilder.java:566-590 | Nothing is missed by the loop over the pieces: wherever a piece crosses an edge of a triangle its box query returns, that crossing point is among the terrain points. |
| ProfileQuery.TriangleCutPoints | noisemodelling-pathfinder/src/main/java/org/noise_planet/noisemodelling/pathfinder/ProfileBuilder.java:569-589 | The inner loop over edges AB, BC and CA builds TriangleCuts. |
| ProfileQuery.TerrainCutPoints | noisemodelling-pathfinder/src/main/java/org/noise_planet/noisemodelling/pathfinder/ProfileBuilder.java:566-590 | The loop over the pieces builds TerrainCuts. |
| ProfileQuery.DedupTerrain | noisemodelling-pathfinder/src/main/java/org/noise_planet/noisemodelling/pathfinder/ProfileBuilder.java:591-603 | The marking and removeAll loops keep exactly the points that have no later point at the same x and y. |
| ProfileQuery.KeptApart | noisemodelling-pathfinder/src/main/java/org/noise_planet/noisemodelling/pathfinder/ProfileBuilder.java:591-603 | After deduplication, no two terrain points share x and y. |
| ProfileQuery.NothingLost | noisemodelling-pathfinder/src/main/java/org/noise_planet/noisemodelling/pathfinder/ProfileBuilder.java:591-603 | Every terrain point has a kept point at the same x and y, so the last occurrence survives. |
| ProfileSpec.TerrainCrossingKept | noisemodelling-pathfinder/src/main/java/org/noise_planet/noisemodelling/pathfinder/ProfileBuilder.java:564-605 | Every crossing of a piece with an edge of a triangle its box query returns survives the deduplication: the profile's terrain points hold a point at the same x and y. |
| ProfileSpec.HitsBelow | noisemodelling-pathfinder/src/main/java/org/noise_planet/noisemodelling/pathfinder/ProfileBuilder.java:542-544 | Every deduplicated wall index names a wall. |
| ProfileSpec.FirstOfKind | noisemodelling-pathfinder/src/main/java/org/noise_planet/noisemodelling/pathfinder/ProfileBuilder.java:772-782 | The first point of a kind exists exactly when the profile has a point of that kind. It is such a point of the profile. |
| ProfileSpec.CrossingsFound | noisemodelling-pathfinder/src/main/java/org/noise_planet/noisemodelling/pathfinder/ProfileBuilder.java:538-605 | Wall points and terrain points are BUILDING, GROUND_EFFECT or TOPOGRAPHY points with no coefficient and no building. Ground points name existing ground effects. |
| ProfileSpec.CutsFacts | noisemodelling-pathfinder/src/main/java/org/noise_planet/noisemodelling/pathfinder/ProfileBuilder.java:518-607 | Before sorting, the first point is the source and the last is the receiver. They are the only points of their kinds, no point has a coefficient, and ground points name existing ground effects. |
| ProfileSpec.OrderedGroundIds | noisemodelling-pathfinder/src/main/java/org/noise_planet/noisemodelling/pathfinder/ProfileBuilder.java:609-631 | After sort and reverse, every ground point and the start area name existing ground effects. |
| ProfileSpec.GroundedPermutation | noisemodelling-pathfinder/src/main/java/org/noise_planet/noisemodelling/pathfinder/ProfileBuilder.java:632-642 | Giving coefficients to a permutation of coefficient-free points changes only the coefficients. The result holds the same points. |
| ProfileSpec.ProfileHoldsEveryCut | noisemodelling-pathfinder/src/main/java/org/noise_planet/noisemodelling/pathfinder/ProfileBuilder.java:517-645 | The returned profile holds exactly the points collected, as many of them, with only groundCoef changed. |
| ProfileSpec.ProfileStartsAtSource | noisemodelling-pathfinder/src/main/java/org/noise_planet/noisemodelling/pathfinder/ProfileBuilder.java:609-620 | The profile starts at the source whenever the sort leaves the source at either end. |
| ProfileSpec.ProfileSourceAndReceiver | noisemodelling-pathfinder/src/main/java/org/noise_planet/noisemodelling/pathfinder/ProfileBuilder.java:692-704 | The profile's first SOURCE point is the source at c0 and its first RECEIVER point is the receiver at c1, each with its coefficient. |
| ProfileSpec.OrderTwo | noisemodelling-pathfinder/src/main/java/org/noise_planet/noisemodelling/pathfinder/ProfileBuilder.java:609-620 | A source and a receiver alone are sorted and oriented into source, then receiver. |
| ProfileSpec.GroundTwo | noisemodelling-pathfinder/src/main/java/org/noise_planet/noisemodelling/pathfinder/ProfileBuilder.java:632-642 | Two points with no border between them both get the start area's coefficient. |
| ProfileSpec.DirectProfile | noisemodelling-pathfinder/src/main/java/org/noise_planet/noisemodelling/pathfinder/ProfileBuilder.java:517-645 | A line that meets no wall and no terrain gives the two-point profile source, receiver, both with the coefficient of the area around the source. |
| Builder.CoversAllWiden | noisemodelling-pathfinder/src/main/java/org/noise_planet/noisemodelling/pathfinder/ProfileBuilder.java:130-135 | Growing the builder's envelope keeps covering everything fed before. |
| Builder.BuildingSideWalls | noisemodelling-pathfinder/src/main/java/org/noise_planet/noisemodelling/pathfinder/ProfileBuilder.java:400-406 | The inner building loop makes one BUILDING wall per consecutive coordinate pair, with the building's index and a tree entry at each new wall's position. |
| Builder.AllBuildingWalls | noisemodelling-pathfinder/src/main/java/org/noise_planet/noisemodelling/pathfinder/ProfileBuilder.java:398-407 | The building loop makes BuildingWalls, building after building. Each tree entry holds the wall's box and its index walls.size()-1. |
| Builder.RingSideWalls | noisemodelling-pathfinder/src/main/java/org/noise_planet/noisemodelling/pathfinder/ProfileBuilder.java:501-505 | The ring loop makes one GROUND_EFFECT wall per consecutive coordinate pair, each entered in the tree at its position. |
| Builder.AreaPolygons | noisemodelling-pathfinder/src/main/java/org/noise_planet/noisemodelling/pathfinder/ProfileBuilder.java:489-498 | The polygon list of a ground area is its polygon, or the parts of its multi-polygon in order, or nothing. |
| Builder.AreaWalls | noisemodelling-pathfinder/src/main/java/org/noise_planet/noisemodelling/pathfinder/ProfileBuilder.java:499-506 | The walls of one ground area are those of its polygons in order, each entered in the tree at its position. |
| Builder.AllGroundWalls | noisemodelling-pathfinder/src/main/java/org/noise_planet/noisemodelling/pathfinder/ProfileBuilder.java:487-507 | The ground loop makes GroundWalls, area after area, each wall entered in the tree at its position. |
| Builder.SourceTreeEntries | noisemodelling-pathfinder/src/main/java/org/noise_planet/noisemodelling/pathfinder/ProfileBuilder.java:389-394 | The source tree holds each source's envelope under its index. |
| Builder.MeshEntries | noisemodelling-pathfinder/src/main/java/org/noise_planet/noisemodelling/pathfinder/ProfileBuilder.java:457-468 | The triangle loop enters each triangle's box under its index and makes its three sides AB, BC and CA. |
| Builder.BuildingWallsFacts | noisemodelling-pathfinder/src/main/java/org/noise_planet/noisemodelling/pathfinder/ProfileBuilder.java:398-407 | Every building wall is a BUILDING wall of an existing building. Both ends have a height, and the second end is at the building height. |
| Builder.BuildingEdgesWalled | noisemodelling-pathfinder/src/main/java/org/noise_planet/noisemodelling/pathfinder/ProfileBuilder.java:400-404 | Every consecutive coordinate pair of every building footprint has a wall on that building between those positions. |
| Builder.BuildingCutHeight | noisemodelling-pathfinder/src/main/java/org/noise_planet/noisemodelling/pathfinder/ProfileBuilder.java:547-555 | Crossing a building wall gives a BUILDING point with the building's id. Its height is interpolated along the wall, not read from the terrain. |
| Builder.RingsWallsFacts | noisemodelling-pathfinder/src/main/java/org/noise_planet/noisemodelling/pathfinder/ProfileBuilder.java:499-505 | Every wall of a list of polygons is a GROUND_EFFECT wall of that area on a consecutive coordinate pair of one polygon. |
| Builder.GroundWallsFacts | noisemodelling-pathfinder/src/main/java/org/noise_planet/noisemodelling/pathfinder/ProfileBuilder.java:487-507 | Every ground wall names an existing ground effect and lies on a consecutive coordinate pair of one of its polygons. |
| Builder.NoRingsNoWalls | noisemodelling-pathfinder/src/main/java/org/noise_planet/noisemodelling/pathfinder/ProfileBuilder.java:487-507 | The ground stage adds no wall exactly when no ground polygon has two coordinates. |
| Builder.EntriesForIndex | noisemodelling-pathfinder/src/main/java/org/noise_planet/noisemodelling/pathfinder/ProfileBuilder.java:405 | Wall-tree entry k holds the box of wall k and the index of that wall's position. |
| Builder.SourceEntriesIndex | noisemodelling-pathfinder/src/main/java/org/noise_planet/noisemodelling/pathfinder/ProfileBuilder.java:391-393 | Source-tree entry k holds the envelope of source k and the index k. |
| Builder.TriangleEntriesIndex | noisemodelling-pathfinder/src/main/java/org/noise_planet/noisemodelling/pathfinder/ProfileBuilder.java:458-464 | Triangle-tree entry k holds the box of triangle k and the index k. |
| Builder.BuildingStageKeepsIndex | noisemodelling-pathfinder/src/main/java/org/noise_planet/noisemodelling/pathfinder/ProfileBuilder.java:396-407 | After the building walls are appended, the new tree and any old one name existing walls. Ground walls still name ground effects. |
| Builder.GroundStageKeepsIndex | noisemodelling-pathfinder/src/main/java/org/noise_planet/noisemodelling/pathfinder/ProfileBuilder.java:487-507 | After the ground walls are appended, the grown tree names existing walls. Every ground wall names a ground effect. |
| Builder.TriangleTree | noisemodelling-pathfinder/src/main/java/org/noise_planet/noisemodelling/pathfinder/ProfileBuilder.java:457-464 | Every triangle-tree entry names a triangle whose corners are vertices. Its box covers the triangle's three corners. |
| Builder.NoTopographicWallSurvives | noisemodelling-pathfinder/src/main/java/org/noise_planet/noisemodelling/pathfinder/ProfileBuilder.java:469-480 | Every terrain side matches itself in the sublist starting at it, so removeAll leaves no TOPOGRAPHY wall. |
| Builder.RemoveDuplicateEdges | noisemodelling-pathfinder/src/main/java/org/noise_planet/noisemodelling/pathfinder/ProfileBuilder.java:469-480 | The marking loops and removeAll keep exactly the sides that were not marked, and by NoTopographicWallSurvives none. |
| Builder.FinishIndexes | noisemodelling-pathfinder/src/main/java/org/noise_planet/noisemodelling/pathfinder/ProfileBuilder.java:388-507 | The four stages in order give Finished's derived data, and keep every tree naming what it indexes. The result says whether the mesh was built. |
| Builder.SourceStage | noisemodelling-pathfinder/src/main/java/org/noise_planet/noisemodelling/pathfinder/ProfileBuilder.java:388-394 | With sources, the source tree is rebuilt over them. Otherwise nothing changes. |
| Builder.BuildingStage | noisemodelling-pathfinder/src/main/java/org/noise_planet/noisemodelling/pathfinder/ProfileBuilder.java:395-408 | When the first building has at least three coordinates, the building walls are appended under a new wall tree. The old tree entries are dropped. |
| Builder.TerrainStage | noisemodelling-pathfinder/src/main/java/org/noise_planet/noisemodelling/pathfinder/ProfileBuilder.java:409-485 | With more than one terrain point or line, the mesh and its tree are replaced as far as the Delaunay step got, and no terrain wall is added. A failure reports false. |
| Builder.GroundStage | noisemodelling-pathfinder/src/main/java/org/noise_planet/noisemodelling/pathfinder/ProfileBuilder.java:486-507 | Given a wall tree, or ground areas without sides, every ground polygon side is appended and inserted into the wall tree, and the tree still names existing walls. |
| Builder.Forced3D | noisemodelling-pathfinder/src/main/java/org/noise_planet/noisemodelling/pathfinder/ProfileBuilder.java:219-222 | A terrain point without a height gets height 0. Its x and y are kept, and a point with a height is unchanged. |
| Builder.ProfileBuilder.constructor | noisemodelling-pathfinder/src/main/java/org/noise_planet/noisemodelling/pathfinder/ProfileBuilder.java:104-107 | A new builder is unlocked and empty. It has the default capacities 20, the piece length 15, no envelope, and no trees. |
| Builder.ProfileBuilder.WithParameters | noisemodelling-pathfinder/src/main/java/org/noise_planet/noisemodelling/pathfinder/ProfileBuilder.java:117-122 | The parameter constructor stores the three node capacities and the piece length. Everything else is empty. |
| Builder.ProfileBuilder.AddBuilding | noisemodelling-pathfinder/src/main/java/org/noise_planet/noisemodelling/pathfinder/ProfileBuilder.java:128-143 | Before the lock, the building is appended and returned, and the envelope grows to cover it. After the lock, it returns null and nothing changes. |
| Builder.ProfileBuilder.AddBuildingGeometry | noisemodelling-pathfinder/src/main/java/org/noise_planet/noisemodelling/pathfinder/ProfileBuilder.java:180-201 | A non-polygon returns null even before the lock. A polygon is appended as a building with its height and coefficients, and the envelope grows. After the lock, it returns null and nothing changes. |
| Builder.ProfileBuilder.AddFootprint | noisemodelling-pathfinder/src/main/java/org/noise_planet/noisemodelling/pathfinder/ProfileBuilder.java:149-170 | The footprint-only overload adds a building of height -1 with no coefficients, under the same lock. |
| Builder.ProfileBuilder.AddBuildingWithHeight | noisemodelling-pathfinder/src/main/java/org/noise_planet/noisemodelling/pathfinder/ProfileBuilder.java:209-211 | The (geometry, height[, id]) overloads add a building with no coefficients, under the same lock. |
| Builder.ProfileBuilder.AddTopographicPoint | noisemodelling-pathfinder/src/main/java/org/noise_planet/noisemodelling/pathfinder/ProfileBuilder.java:217-231 | Before the lock, the point is appended with height 0 when it has none, and the envelope grows. After the lock, nothing changes. |
| Builder.ProfileBuilder.AddTopographicLine | noisemodelling-pathfinder/src/main/java/org/noise_planet/noisemodelling/pathfinder/ProfileBuilder.java:237-247 | Before the lock, the line is appended and the envelope grows. After the lock, nothing changes. |
| Builder.ProfileBuilder.AddGroundEffect | noisemodelling-pathfinder/src/main/java/org/noise_planet/noisemodelling/pathfinder/ProfileBuilder.java:254-264 | Before the lock, the area and its coefficient are appended and the envelope grows. After the lock, nothing changes. |
| Builder.ProfileBuilder.AddSourcePoint | noisemodelling-pathfinder/src/main/java/org/noise_planet/noisemodelling/pathfinder/ProfileBuilder.java:270-272 | A point source is appended whether or not feeding is finished. |
| Builder.ProfileBuilder.AddSource | noisemodelling-pathfinder/src/main/java/org/noise_planet/noisemodelling/pathfinder/ProfileBuilder.java:278-280 | A source geometry is appended whether or not feeding is finished. |
| Builder.ProfileBuilder.AddReceiver | noisemodelling-pathfinder/src/main/java/org/noise_planet/noisemodelling/pathfinder/ProfileBuilder.java:286-288 | A receiver is appended whether or not feeding is finished; the builder's invariant is kept. |
| Builder.ProfileBuilder.ClearBuildings | noisemodelling-pathfinder/src/main/java/org/noise_planet/noisemodelling/pathfinder/ProfileBuilder.java:318-320 | The building list is emptied and the derived walls are kept. |
| Builder.ProfileBuilder.SetMaximumArea | noisemodelling-pathfinder/src/main/java/org/noise_planet/noisemodelling/pathfinder/ProfileBuilder.java:334-336 | The maximum triangle area is stored; the builder's invariant is kept. |
| Builder.ProfileBuilder.SetIndexes | noisemodelling-pathfinder/src/main/java/org/noise_planet/noisemodelling/pathfinder/ProfileBuilder.java:387 | The lock is set and the derived data are written back, keeping every tree naming what it indexes. |
| Builder.ProfileBuilder.FinishFeeding | noisemodelling-pathfinder/src/main/java/org/noise_planet/noisemodelling/pathfinder/ProfileBuilder.java:386-509 | finishFeeding locks feeding, and the derived data become Finished's for what was fed and the Delaunay outcome. Every tree still names what it indexes. The result is false exactly when fed terrain could not be meshed. |
| Builder.ProfileBuilder.GetProfile | noisemodelling-pathfinder/src/main/java/org/noise_planet/noisemodelling/pathfinder/ProfileBuilder.java:517-645 | Given a terrain tree with a triangle or walls that all carry heights, the profile's points are ProfilePoints of the builder's indexed data. Source and receiver are the first points of their kinds. hasBuilding and hasGroundEffect say whether a wall point of that kind was found, and hasTopography stays unset. |
| Builder.AddWallCutPoints | noisemodelling-pathfinder/src/main/java/org/noise_planet/noisemodelling/pathfinder/ProfileBuilder.java:537-562 | Given a terrain tree with a triangle or walls that all carry heights: with a wall tree, the wall points are appended in order of first hit and the two flags are raised for the kinds found. Without a tree, nothing changes. |
| Builder.AddTerrainCutPoints | noisemodelling-pathfinder/src/main/java/org/noise_planet/noisemodelling/pathfinder/ProfileBuilder.java:564-605 | With a triangle tree, the deduplicated terrain points are appended and no flag changes. Without a tree, nothing changes. |
| Builder.CollectCuts | noisemodelling-pathfinder/src/main/java/org/noise_planet/noisemodelling/pathfinder/ProfileBuilder.java:518-607 | Given a terrain tree with a triangle or walls that all carry heights, the new profile holds the source, the wall points, the terrain points and the receiver, in that order. Its source is the source point and its flags are set as found. |
| Builder.OrderAndGround | noisemodelling-pathfinder/src/main/java/org/noise_planet/noisemodelling/pathfinder/ProfileBuilder.java:609-642 | Sorting, orienting and the ground walk give ProfilePoints. Source and receiver become the first points of their kinds, and the flags are kept. |
| Builder.OrderPoints | noisemodelling-pathfinder/src/main/java/org/noise_planet/noisemodelling/pathfinder/ProfileBuilder.java:609-620 | The points are sorted and then reversed when the first is not the source. Source, receiver and flags are kept. |
| Builder.GroundPoints | noisemodelling-pathfinder/src/main/java/org/noise_planet/noisemodelling/pathfinder/ProfileBuilder.java:632-642 | The points get their ground coefficients by the walk, and the source and receiver are the updated points. |
| Builder.AddWallCut | noisemodelling-pathfinder/src/main/java/org/noise_planet/noisemodelling/pathfinder/ProfileBuilder.java:544-560 | For a wall with heights at both ends, or when a terrain triangle can be found, the wall adds its crossing point, if any, and raises the flag of its kind. |
| Builder.AddWallCuts | noisemodelling-pathfinder/src/main/java/org/noise_planet/noisemodelling/pathfinder/ProfileBuilder.java:543-561 | For walls that all carry heights, or when a terrain triangle can be found, the wall loop appends WallCuts for the deduplicated indexes in order, and raises the flags of the kinds found. |
| Builder.AddEach | noisemodelling-pathfinder/src/main/java/org/noise_planet/noisemodelling/pathfinder/ProfileBuilder.java:604 | forEach(addCutPt) appends the points in order and sets no flag. |

## Left out

- Logging: the warnings and errors the source logs, including the two consistency messages after the reversal, have no effect on state and are not modelled.
- Floating point: coordinates and coefficients are reals. NaN heights and coefficients are `None`, and `Coordinate.equals` is equality of x and y.
- The geometry library's numerical primitives (segment intersection, pointAlong, segmentFraction, length, interpolateZ, polygon containment) are uninterpreted parameters. Exact interpolated heights are not modelled. `interpolateZ` and the terrain lookup return an optional height, because both can give NaN (a triangle corner or wall end with no height, a wall of zero length).
- `getTopoZ`: its loop widens the search box until the triangle tree returns something. It is the parameter `topoZ` of `GeometryOps`; the callers require a triangle for it to find (see `Builder.ProfileBuilder.GetProfile` below).
- The Delaunay layer (`LayerTinfour`): meshing is the `mesh` parameter of `FinishFeeding`. The maximum area is stored but not passed on, and the exceptions of the five calls become the two failure cases.
- STRtree: a query returns the matching items in insertion order, not the tree's own order. The node capacities are stored but have no effect. The library builds the tree on its first query and refuses inserts after that; the model appends, so a second `finishFeeding` that inserts ground walls into a wall tree already queried succeeds in the model where the source fails.
- Builder.ProfileBuilder.FinishFeeding: requires that the ground stage has a wall tree to insert into when a ground polygon has a side. That means an earlier tree, a building tree built by this call, or a terrain failure that skips the ground stage. Without one, the source dereferences a null tree and fails.
- Builder.GroundStage: requires a wall tree, or ground areas without sides. Otherwise the source inserts into a null tree (ProfileBuilder.java:504) and fails; `FinishFeeding` states when this holds.
- Builder.ProfileBuilder.GetProfile: requires that every wall carries heights at both ends or that the terrain tree holds a triangle (`ProfileSpec.TerrainHeightsAvailable`). Otherwise a crossed wall without a height sends the source to the terrain lookup, which dereferences a null terrain tree (ProfileBuilder.java:657) or, on an empty one, loops for ever. Ground walls keep the polygons' coordinates, which may have no height, so this case is reachable; the model leaves it out rather than return a profile.
- Builder.CollectCuts: requires the same terrain-height condition as `GetProfile`, for the same reason.
- Builder.AddWallCutPoints: requires the same terrain-height condition as `GetProfile`, for the same reason.
- Builder.AddWallCuts: requires the same terrain-height condition as `GetProfile`, for the same reason.
- Builder.AddWallCut: requires the same terrain-height condition as `GetProfile`, for the same reason.
- Builder.ProfileBuilder.FinishFeeding: requires the Delaunay outcome's triangles to name its own vertices. The layer's output is taken on trust.
- Builder.ProfileBuilder.WithParameters: requires a positive piece length. With a negative length the split loop makes no pieces, so a query finds no walls and no terrain; with zero it does not end for a line of positive length. Neither case is modelled.
- Profile.CutProfile.Sort: the source's `List.sort` is a TimSort, modelled as a stable insertion sort with the same comparator. Because `compareTo` is not a total order, the two can order points differently, and TimSort may throw when it detects the inconsistency. Only the permutation and the neighbour ordering are proved as properties of the sort, but `Sort`'s own equality with `SortByCompare` is passed on: the equalities of `Profile.SortByCompare`, `Profile.Oriented`, `ProfileSpec.Ordered`, `ProfileSpec.ProfilePoints`, `Builder.OrderPoints`, `Builder.OrderAndGround` and `Builder.ProfileBuilder.GetProfile` fix the insertion sort's order, which TimSort need not produce.
- Object identity: the identity tests on cut points and ground effects, and `removeAll`, are modelled by value and by position. Values cannot coincide where identities differ: only the source is a SOURCE point, and ground effects are compared by index. Aliasing is not modelled: the caller's coordinate is updated in place for a terrain point with no height, and the builder's envelope may share the first geometry's envelope object.
- Accessors (`getBuildings`, `getTriangles`, `getVertices`, `getReceivers`, `getSources`, `getGroundEffects`, `getMeshEnvelope`, `getBuildingCount`, `getBuilding`, the `CutProfile`, `CutPoint`, `Building`, `Wall` and `GroundEffect` getters, `CutPoint.toString`): plain field reads. They are the fields of the classes and datatypes.
- The `Building` primary key argument: the source drops it (the field stays -1), so the model does not store it.
- Concurrency: none in the source.
