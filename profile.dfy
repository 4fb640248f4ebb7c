/**
 * The cut profile: the list of cut points a query collects, with the source
 * and receiver points and the three "has" flags, and the sort and reversal
 * the query applies to it.
 */
module Profile {
  import opened Geometry
  import opened Entities

  function SourcePoint(c: Coord): CutPoint {
    NewCutPoint(c, SourceCut, -1)
  }

  function ReceiverPoint(c: Coord): CutPoint {
    NewCutPoint(c, ReceiverCut, -1)
  }

  /** Each point is ranked no later than its successor by CutPoint.compareTo. */
  predicate AdjacentOrdered(s: seq<CutPoint>) {
    forall k :: 0 <= k < |s| - 1 ==> Compare(s[k], s[k + 1]) <= 0
  }

  /**
   * Insert p before the first point it is ranked strictly before, that is,
   * after every point it ties with or follows (a stable insertion).
   */
  function Insert(p: CutPoint, s: seq<CutPoint>): (r: seq<CutPoint>)
    ensures |r| == |s| + 1
    ensures multiset(r) == multiset(s) + multiset{p}
    ensures r[0] == p || (s != [] && r[0] == s[0])
  {
    if s == [] then [p]
    else if Compare(p, s[0]) < 0 then [p] + s
    else
      assert s == [s[0]] + s[1..];
      [s[0]] + Insert(p, s[1..])
  }

  /** Inserting into an ordered list keeps it ordered. */
  lemma {:induction false} InsertOrdered(p: CutPoint, s: seq<CutPoint>)
    requires AdjacentOrdered(s)
    ensures AdjacentOrdered(Insert(p, s))
  {
    if s != [] && Compare(p, s[0]) >= 0 {
      CompareFlip(p, s[0]);
      var rest := Insert(p, s[1..]);
      InsertOrdered(p, s[1..]);
      assert forall k :: 1 <= k < |rest| + 1 ==> ([s[0]] + rest)[k] == rest[k - 1];
    }
  }

  /**
   * List.sort(CutPoint::compareTo), as a stable insertion sort: the result
   * is a permutation of the input in which every point is ranked no later
   * than the next one.
   */
  function SortByCompare(s: seq<CutPoint>): (r: seq<CutPoint>)
    ensures |r| == |s|
    ensures multiset(r) == multiset(s)
    ensures AdjacentOrdered(r)
  {
    if s == [] then []
    else
      assert s == s[..|s| - 1] + [s[|s| - 1]];
      InsertOrdered(s[|s| - 1], SortByCompare(s[..|s| - 1]));
      Insert(s[|s| - 1], SortByCompare(s[..|s| - 1]))
  }

  /** Collections.reverse: the same points, last first. */
  function Reversed(s: seq<CutPoint>): (r: seq<CutPoint>)
    ensures |r| == |s|
    ensures forall k :: 0 <= k < |s| ==> r[k] == s[|s| - 1 - k]
    ensures multiset(r) == multiset(s)
  {
    if s == [] then []
    else
      assert s == s[..|s| - 1] + [s[|s| - 1]];
      [s[|s| - 1]] + Reversed(s[..|s| - 1])
  }

  /** x is the first or the last element of s. */
  predicate AtAnEnd(s: seq<CutPoint>, x: CutPoint) {
    s != [] && (s[0] == x || s[|s| - 1] == x)
  }

  /**
   * The orientation step after sorting: when the first point is not the
   * source, the whole list is reversed. The result is a permutation of the
   * sorted points; it starts at the source whenever the sort left the
   * source at either end.
   */
  function Oriented(sorted: seq<CutPoint>, source: CutPoint): (r: seq<CutPoint>)
    requires sorted != []
    ensures multiset(r) == multiset(sorted)
    ensures |r| == |sorted|
    ensures AtAnEnd(sorted, source) ==> r[0] == source
  {
    if sorted[0] != source then Reversed(sorted) else sorted
  }

  /** The cut profile a query fills and hands to its caller. */
  class CutProfile {
    var pts: seq<CutPoint>
    var source: Option<CutPoint>
    var receiver: Option<CutPoint>
    var hasBuilding: bool
    var hasTopography: bool
    var hasGroundEffect: bool

    constructor ()
      ensures pts == [] && source == None && receiver == None
      ensures !hasBuilding && !hasTopography && !hasGroundEffect
    {
      pts := [];
      source := None;
      receiver := None;
      hasBuilding := false;
      hasTopography := false;
      hasGroundEffect := false;
    }

    method AddSource(c: Coord)
      modifies this
      ensures source == Some(SourcePoint(c)) && pts == old(pts) + [SourcePoint(c)]
      ensures receiver == old(receiver)
      ensures hasBuilding == old(hasBuilding) && hasTopography == old(hasTopography)
      ensures hasGroundEffect == old(hasGroundEffect)
    {
      source := Some(SourcePoint(c));
      pts := pts + [SourcePoint(c)];
    }

    method AddReceiver(c: Coord)
      modifies this
      ensures receiver == Some(ReceiverPoint(c)) && pts == old(pts) + [ReceiverPoint(c)]
      ensures source == old(source)
      ensures hasBuilding == old(hasBuilding) && hasTopography == old(hasTopography)
      ensures hasGroundEffect == old(hasGroundEffect)
    {
      receiver := Some(ReceiverPoint(c));
      pts := pts + [ReceiverPoint(c)];
    }

    method AddBuildingCutPt(c: Coord, id: int)
      modifies this
      ensures pts == old(pts) + [NewCutPoint(c, BuildingCut, id)] && hasBuilding
      ensures source == old(source) && receiver == old(receiver)
      ensures hasTopography == old(hasTopography) && hasGroundEffect == old(hasGroundEffect)
    {
      pts := pts + [NewCutPoint(c, BuildingCut, id)];
      hasBuilding := true;
    }

    method AddTopoCutPt(c: Coord, id: int)
      modifies this
      ensures pts == old(pts) + [NewCutPoint(c, TopographyCut, id)] && hasTopography
      ensures source == old(source) && receiver == old(receiver)
      ensures hasBuilding == old(hasBuilding) && hasGroundEffect == old(hasGroundEffect)
    {
      pts := pts + [NewCutPoint(c, TopographyCut, id)];
      hasTopography := true;
    }

    method AddGroundCutPt(c: Coord, id: int)
      modifies this
      ensures pts == old(pts) + [NewCutPoint(c, GroundEffectCut, id)] && hasGroundEffect
      ensures source == old(source) && receiver == old(receiver)
      ensures hasBuilding == old(hasBuilding) && hasTopography == old(hasTopography)
    {
      pts := pts + [NewCutPoint(c, GroundEffectCut, id)];
      hasGroundEffect := true;
    }

    /** Appends an existing point; unlike the typed adders it sets no flag. */
    method AddCutPt(p: CutPoint)
      modifies this
      ensures pts == old(pts) + [p]
      ensures source == old(source) && receiver == old(receiver)
      ensures hasBuilding == old(hasBuilding) && hasTopography == old(hasTopography)
      ensures hasGroundEffect == old(hasGroundEffect)
    {
      pts := pts + [p];
    }

    method Sort()
      modifies this
      ensures pts == SortByCompare(old(pts))
      ensures source == old(source) && receiver == old(receiver)
      ensures hasBuilding == old(hasBuilding) && hasTopography == old(hasTopography)
      ensures hasGroundEffect == old(hasGroundEffect)
    {
      pts := SortByCompare(pts);
    }

    method Reverse()
      modifies this
      ensures pts == Reversed(old(pts))
      ensures source == old(source) && receiver == old(receiver)
      ensures hasBuilding == old(hasBuilding) && hasTopography == old(hasTopography)
      ensures hasGroundEffect == old(hasGroundEffect)
    {
      pts := Reversed(pts);
    }
  }
}
