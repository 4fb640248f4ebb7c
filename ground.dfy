/**
 * The last stage of a profile query: a walk along the sorted profile that
 * tracks the ground area the line is in and gives each point that area's
 * ground coefficient (None, the source's NaN, outside every area).
 */
module GroundWalk {
  import opened Geometry
  import opened Entities

  /** Every ground-effect point names one of n ground effects. */
  predicate GroundIdsBelow(s: seq<CutPoint>, n: int) {
    forall p :: p in s && p.kind == GroundEffectCut ==> 0 <= p.id < n
  }

  predicate StateBelow(st: Option<int>, n: int) {
    st.Some? ==> 0 <= st.value < n
  }

  /**
   * The ground area the source lies in: the last ground effect whose area
   * contains it, or none.
   */
  function LastContaining(ops: GeometryOps, ges: seq<GroundEffect>, c: Coord): (r: Option<int>)
    ensures r.Some? ==> 0 <= r.value < |ges| && ops.contains(ges[r.value].geom, c)
    ensures r.Some? ==> forall k :: r.value < k < |ges| ==> !ops.contains(ges[k].geom, c)
    ensures r.None? ==> forall k :: 0 <= k < |ges| ==> !ops.contains(ges[k].geom, c)
  {
    if ges == [] then None
    else if ops.contains(ges[|ges| - 1].geom, c) then Some(|ges| - 1)
    else LastContaining(ops, ges[..|ges| - 1], c)
  }

  /** The loop over the ground effects that finds the area holding the source. */
  method InitialGround(ops: GeometryOps, ges: seq<GroundEffect>, c: Coord) returns (current: Option<int>)
    ensures current == LastContaining(ops, ges, c)
  {
    current := None;
    for k := 0 to |ges|
      invariant current == LastContaining(ops, ges[..k], c)
    {
      assert ges[..k + 1][..k] == ges[..k] && ges[..k + 1][k] == ges[k];
      if ops.contains(ges[k].geom, c) {
        current := Some(k);
      }
    }
    assert ges[..|ges|] == ges;
  }

  /**
   * One step of the walk: crossing the border of the current area leaves
   * it, crossing a border outside any area enters that area, and crossing
   * another area's border while inside one changes nothing.
   */
  function Step(current: Option<int>, p: CutPoint): Option<int> {
    if p.kind != GroundEffectCut then current
    else if current == Some(p.id) then None
    else if current.None? then Some(p.id)
    else current
  }

  /** The area the walk is in after the given points. */
  function StateAfter(init: Option<int>, pts: seq<CutPoint>): Option<int> {
    if pts == [] then init else Step(StateAfter(init, pts[..|pts| - 1]), pts[|pts| - 1])
  }

  /** One more point of the walk: the area after it is the step from the area before it. */
  lemma StateAfterSnoc(init: Option<int>, pts: seq<CutPoint>, k: int)
    requires 0 <= k < |pts|
    ensures StateAfter(init, pts[..k + 1]) == Step(StateAfter(init, pts[..k]), pts[k])
  {
    assert pts[..k + 1][..k] == pts[..k];
  }

  /** The walk only ever names an area that the start or a crossed border names. */
  lemma {:induction false} StateAfterBelow(init: Option<int>, pts: seq<CutPoint>, n: int)
    requires StateBelow(init, n) && GroundIdsBelow(pts, n)
    ensures StateBelow(StateAfter(init, pts), n)
  {
    if pts != [] {
      var p := pts[..|pts| - 1];
      assert forall q :: q in p ==> q in pts;
      assert pts[|pts| - 1] in pts;
      StateAfterBelow(init, p, n);
    }
  }

  /** The coefficient of the area the walk is in; None outside every area. */
  function CoefOf(ges: seq<GroundEffect>, st: Option<int>): Option<real> {
    if st.Some? && 0 <= st.value < |ges| then Some(ges[st.value].coef) else None
  }

  /** The profile after the walk: each point gets the coefficient of the area the walk is in once past it. */
  function Grounded(ges: seq<GroundEffect>, init: Option<int>, pts: seq<CutPoint>): seq<CutPoint> {
    seq(|pts|, k requires 0 <= k < |pts| => pts[k].(groundCoef := CoefOf(ges, StateAfter(init, pts[..k + 1]))))
  }

  /** The walk: the loop over the profile that updates each point's ground coefficient. */
  method PropagateGround(ges: seq<GroundEffect>, init: Option<int>, pts: seq<CutPoint>) returns (out: seq<CutPoint>)
    requires StateBelow(init, |ges|) && GroundIdsBelow(pts, |ges|)
    ensures |out| == |pts|
    ensures forall k :: 0 <= k < |pts| ==> out[k].(groundCoef := pts[k].groundCoef) == pts[k]
    ensures out == Grounded(ges, init, pts)
  {
    var current := init;
    out := [];
    for k := 0 to |pts|
      invariant current == StateAfter(init, pts[..k])
      invariant StateBelow(current, |ges|)
      invariant out == Grounded(ges, init, pts[..k])
    {
      var cut := pts[k];
      assert cut in pts;
      StateAfterSnoc(init, pts, k);
      GroundedSnoc(ges, init, pts, k);
      if cut.kind == GroundEffectCut {
        if current == Some(cut.id) {
          current := None;
        } else if current.None? {
          current := Some(cut.id);
        }
      }
      var coef := if current.Some? then Some(ges[current.value].coef) else None;
      out := out + [cut.(groundCoef := coef)];
    }
    assert pts[..|pts|] == pts;
  }

  /** The walk over one more point appends that point with the coefficient of the area it leads to. */
  lemma GroundedSnoc(ges: seq<GroundEffect>, init: Option<int>, pts: seq<CutPoint>, k: int)
    requires 0 <= k < |pts|
    ensures Grounded(ges, init, pts[..k + 1])
         == Grounded(ges, init, pts[..k]) + [pts[k].(groundCoef := CoefOf(ges, StateAfter(init, pts[..k + 1])))]
  {
    var a := Grounded(ges, init, pts[..k + 1]);
    var b := Grounded(ges, init, pts[..k]) + [pts[k].(groundCoef := CoefOf(ges, StateAfter(init, pts[..k + 1])))];
    forall m | 0 <= m < k + 1
      ensures a[m] == b[m]
    {
      assert pts[..k + 1][..m + 1] == pts[..m + 1];
      if m < k {
        assert pts[..k][..m + 1] == pts[..m + 1];
      }
    }
  }

  /** No border of any area is crossed among the points pts[a..b]. */
  predicate NoCrossing(pts: seq<CutPoint>, a: int, b: int)
    requires 0 <= a <= b <= |pts|
  {
    forall k :: a <= k < b ==> pts[k].kind != GroundEffectCut
  }

  /** Without a border crossing the walk stays in the area it is in. */
  lemma {:induction false} StateSteady(init: Option<int>, pts: seq<CutPoint>, a: int, b: int)
    requires 0 <= a <= b <= |pts| && NoCrossing(pts, a, b)
    ensures StateAfter(init, pts[..b]) == StateAfter(init, pts[..a])
    decreases b - a
  {
    if a < b {
      StateSteady(init, pts, a, b - 1);
      assert pts[..b][..b - 1] == pts[..b - 1];
    }
  }

  /** A profile that crosses no border has the source's coefficient everywhere. */
  lemma NoCrossingKeepsSourceGround(ges: seq<GroundEffect>, init: Option<int>, pts: seq<CutPoint>)
    requires NoCrossing(pts, 0, |pts|)
    ensures forall k :: 0 <= k < |pts| ==> Grounded(ges, init, pts)[k].groundCoef == CoefOf(ges, init)
  {
    forall k | 0 <= k < |pts|
      ensures Grounded(ges, init, pts)[k].groundCoef == CoefOf(ges, init)
    {
      StateSteady(init, pts, 0, k + 1);
      assert pts[..0] == [];
    }
  }

  /**
   * A source inside area r whose line crosses one border, that of r, at
   * point e: the points before e get r's coefficient and the crossing point
   * and all after it get none.
   */
  lemma LeavingOneArea(ges: seq<GroundEffect>, r: int, pts: seq<CutPoint>, e: int)
    requires 0 <= e < |pts| && pts[e].kind == GroundEffectCut && pts[e].id == r
    requires NoCrossing(pts, 0, e) && NoCrossing(pts, e + 1, |pts|)
    ensures forall k :: 0 <= k < e ==> Grounded(ges, Some(r), pts)[k].groundCoef == CoefOf(ges, Some(r))
    ensures forall k :: e <= k < |pts| ==> Grounded(ges, Some(r), pts)[k].groundCoef == None
  {
    OneCrossing(ges, Some(r), pts, e);
  }

  /**
   * A source outside every area whose line crosses one border, that of
   * area r, at point e: the points before e get none, and the crossing
   * point and all after it get r's coefficient.
   */
  lemma EnteringOneArea(ges: seq<GroundEffect>, r: int, pts: seq<CutPoint>, e: int)
    requires 0 <= e < |pts| && pts[e].kind == GroundEffectCut && pts[e].id == r
    requires NoCrossing(pts, 0, e) && NoCrossing(pts, e + 1, |pts|)
    ensures forall k :: 0 <= k < e ==> Grounded(ges, None, pts)[k].groundCoef == None
    ensures forall k :: e <= k < |pts| ==> Grounded(ges, None, pts)[k].groundCoef == CoefOf(ges, Some(r))
  {
    OneCrossing(ges, None, pts, e);
  }

  /** With one border crossing at e, the walk is in the start area before e and in Step's result from e on. */
  lemma OneCrossing(ges: seq<GroundEffect>, init: Option<int>, pts: seq<CutPoint>, e: int)
    requires 0 <= e < |pts| && NoCrossing(pts, 0, e) && NoCrossing(pts, e + 1, |pts|)
    ensures forall k :: 0 <= k < e ==> Grounded(ges, init, pts)[k].groundCoef == CoefOf(ges, init)
    ensures forall k :: e <= k < |pts| ==> Grounded(ges, init, pts)[k].groundCoef == CoefOf(ges, Step(init, pts[e]))
  {
    assert pts[..0] == [];
    StateSteady(init, pts, 0, e);
    assert pts[..e + 1][..e] == pts[..e];
    forall k | 0 <= k < |pts|
      ensures k < e ==> Grounded(ges, init, pts)[k].groundCoef == CoefOf(ges, init)
      ensures e <= k ==> Grounded(ges, init, pts)[k].groundCoef == CoefOf(ges, Step(init, pts[e]))
    {
      if k < e {
        StateSteady(init, pts, 0, k + 1);
      } else {
        StateSteady(init, pts, e + 1, k + 1);
      }
    }
  }
}
