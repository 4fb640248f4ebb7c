/**
 * The bounding-box trees (STRtree) the builder keeps over walls, terrain
 * triangles and sources: a list of (envelope, item) entries in insertion
 * order. A query returns the items whose envelope meets the search box.
 */
module SpatialIndex {
  import opened Geometry

  datatype Entry = Entry(env: Envelope, item: int)

  /** Every item stored in the tree lies in [0, n). */
  predicate ItemsBelow(entries: seq<Entry>, n: int) {
    forall e :: e in entries ==> 0 <= e.item < n
  }

  /**
   * STRtree.query: exactly the items of the entries whose envelope
   * intersects the search envelope.
   */
  function Query(entries: seq<Entry>, search: Envelope): (r: seq<int>)
    ensures |r| <= |entries|
    ensures forall i :: i in r <==> exists e :: e in entries && e.item == i && Intersects(e.env, search)
  {
    if entries == [] then []
    else
      var p, e := entries[..|entries| - 1], entries[|entries| - 1];
      assert entries == p + [e];
      Query(p, search) + (if Intersects(e.env, search) then [e.item] else [])
  }

  /** A query over a tree whose items lie in [0, n) only returns such items. */
  lemma QueryBelow(entries: seq<Entry>, search: Envelope, n: int)
    requires ItemsBelow(entries, n)
    ensures forall i :: i in Query(entries, search) ==> 0 <= i < n
  {
  }
}
