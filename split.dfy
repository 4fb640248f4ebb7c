/**
 * The first stage of a profile query: the source-receiver line is split
 * into pieces no longer than the maximum line length, so that each piece
 * queries the trees with a small box.
 */
module Split {
  import opened Geometry

  /** The number of pieces: the least n with n * maxLen >= l. */
  function PieceCount(l: real, maxLen: real): (n: nat)
    requires maxLen > 0.0 && l >= maxLen
    ensures n >= 1
    ensures (n - 1) as real < l / maxLen <= n as real
  {
    var q := l / maxLen;
    assert q >= 1.0 by {
      assert q * maxLen == l;
    }
    if q.Floor as real == q then q.Floor else q.Floor + 1
  }

  /** The fraction of the line where piece i starts. */
  function Lo(i: int, frac: real): real {
    i as real * frac
  }

  /** The fraction of the line where piece i ends, clamped to the end of the line. */
  function Hi(i: int, frac: real): real {
    Min((i + 1) as real * frac, 1.0)
  }

  function Piece(ops: GeometryOps, full: Segment, frac: real, i: int): Segment {
    Segment(ops.pointAlong(full, Lo(i, frac)), ops.pointAlong(full, Hi(i, frac)))
  }

  /**
   * The pieces of the line: the whole line when it is shorter than maxLen,
   * otherwise PieceCount pieces of maxLen / length of the line each.
   */
  function Pieces(ops: GeometryOps, full: Segment, maxLen: real): seq<Segment>
    requires maxLen > 0.0
  {
    var l := ops.length(full);
    if l < maxLen then [full]
    else seq(PieceCount(l, maxLen), i => Piece(ops, full, maxLen / l, i))
  }

  /** The splitting loop of getProfile. */
  method SplitLine(ops: GeometryOps, full: Segment, maxLen: real) returns (lines: seq<Segment>)
    requires maxLen > 0.0
    ensures lines == Pieces(ops, full, maxLen)
  {
    var l := ops.length(full);
    if l < maxLen {
      lines := [full];
    } else {
      var frac := maxLen / l;
      ghost var n := PieceCount(l, maxLen);
      lines := [];
      var i := 0;
      while (i as real) < l / maxLen
        invariant 0 <= i <= n
        invariant |lines| == i
        invariant forall k :: 0 <= k < i ==> lines[k] == Piece(ops, full, frac, k)
        decreases n - i
      {
        var piece := Segment(ops.pointAlong(full, i as real * frac),
                             ops.pointAlong(full, Min((i + 1) as real * frac, 1.0)));
        assert Lo(i, frac) == i as real * frac;
        assert Hi(i, frac) == Min((i + 1) as real * frac, 1.0);
        assert piece.p0 == ops.pointAlong(full, Lo(i, frac));
        assert piece == Piece(ops, full, frac, i);
        lines := lines + [piece];
        i := i + 1;
      }
      assert i == n;
    }
  }

  lemma MulLess(a: real, b: real, c: real)
    requires a < b && c > 0.0
    ensures a * c < b * c
  {
  }

  /** The fraction step times the piece-count bound is one whole line. */
  lemma FractionTimesCount(l: real, maxLen: real)
    requires maxLen > 0.0 && l >= maxLen
    ensures (l / maxLen) * (maxLen / l) == 1.0
  {
  }

  lemma AddOneTimes(a: real, f: real)
    ensures (a + 1.0) * f == a * f + f
  {
  }

  /** Piece i of n is non-empty, at most frac long, and ends where the next starts or at the end of the line. */
  lemma PieceBounds(i: int, n: int, q: real, frac: real)
    requires 0 <= i < n && (n - 1) as real < q <= n as real
    requires frac > 0.0 && q * frac == 1.0
    ensures i < n - 1 ==> Hi(i, frac) == Lo(i + 1, frac)
    ensures i == n - 1 ==> Hi(i, frac) == 1.0
    ensures Lo(i, frac) < Hi(i, frac) && Hi(i, frac) - Lo(i, frac) <= frac
  {
    var a := i as real;
    var lo, hi, one := a * frac, (a + 1.0) * frac, q * frac;
    assert (i + 1) as real == a + 1.0;
    AddOneTimes(a, frac);
    assert hi == lo + frac;
    MulLess(a, q, frac);
    assert lo < one;
    if i < n - 1 {
      MulLess(a + 1.0, q, frac);
      assert hi < one;
      assert Lo(i + 1, frac) == hi;
    } else if q < n as real {
      MulLess(q, a + 1.0, frac);
      assert one < hi;
    } else {
      assert hi == one;
    }
  }
  /** The piece bounds for n pieces of frac each, where q pieces make the whole line. */
  lemma {:induction false} Tile(n: int, q: real, frac: real)
    requires n >= 1 && (n - 1) as real < q <= n as real
    requires frac > 0.0 && q * frac == 1.0
    ensures forall i :: 0 <= i < n - 1 ==> Hi(i, frac) == Lo(i + 1, frac)
    ensures Hi(n - 1, frac) == 1.0
    ensures forall i :: 0 <= i < n ==> Lo(i, frac) < Hi(i, frac) && Hi(i, frac) - Lo(i, frac) <= frac
  {
    forall i | 0 <= i < n
      ensures Lo(i, frac) < Hi(i, frac) && Hi(i, frac) - Lo(i, frac) <= frac
      ensures i < n - 1 ==> Hi(i, frac) == Lo(i + 1, frac)
    {
      PieceBounds(i, n, q, frac);
    }
    PieceBounds(n - 1, n, q, frac);
  }

  /**
   * The fractions tile [0, 1]: the first piece starts at 0, each piece ends
   * where the next starts, the last ends at 1, and every piece is non-empty
   * and spans at most maxLen / l.
   */
  lemma PiecesTile(l: real, maxLen: real)
    requires maxLen > 0.0 && l >= maxLen
    ensures var n, frac := PieceCount(l, maxLen), maxLen / l;
      && Lo(0, frac) == 0.0
      && (forall i :: 0 <= i < n - 1 ==> Hi(i, frac) == Lo(i + 1, frac))
      && Hi(n - 1, frac) == 1.0
      && (forall i :: 0 <= i < n ==> Lo(i, frac) < Hi(i, frac) && Hi(i, frac) - Lo(i, frac) <= frac)
  {
    FractionTimesCount(l, maxLen);
    assert Lo(0, maxLen / l) == 0.0;
    Tile(PieceCount(l, maxLen), l / maxLen, maxLen / l);
  }

  /**
   * The pieces form a chain along the line: the first starts at fraction 0,
   * each ends where the next begins, and the last ends at fraction 1.
   * A line shorter than maxLen is kept whole.
   */
  lemma PiecesChain(ops: GeometryOps, full: Segment, maxLen: real)
    requires maxLen > 0.0
    ensures var l, ps := ops.length(full), Pieces(ops, full, maxLen);
      && (l < maxLen ==> ps == [full])
      && (l >= maxLen ==>
            && |ps| == PieceCount(l, maxLen)
            && ps[0].p0 == ops.pointAlong(full, 0.0)
            && (forall i :: 0 <= i < |ps| - 1 ==> ps[i].p1 == ps[i + 1].p0)
            && ps[|ps| - 1].p1 == ops.pointAlong(full, 1.0))
  {
    var l := ops.length(full);
    if l >= maxLen {
      PiecesTile(l, maxLen);
    }
  }
}
