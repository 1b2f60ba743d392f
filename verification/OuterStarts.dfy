/** The scan for outer contours.

    In this mode only borders that face the outside are traced.  The scanner decides by the last
    marked pixel of the row, and by its sign, whether a start faces the outside; that this is
    right, and that nothing is missed, is proved here. */
module OuterStarts {
  import opened PixelGrid
  import opened BorderFollowing
  import opened BorderGaps
  import opened OuterBorders
  import opened TracedBorders

  /** The start is to the right of a zero pixel that is joined to the frame. */
  ghost predicate OuterStart(m: Mask, width: int, height: int, t: Start) {
    !t.isHole && Outside(m, width, height, Nb(t.p, 4))
  }

  ghost predicate AllOuter(m: Mask, width: int, height: int, ts: seq<Start>) {
    Starts(m, ts) && forall i :: 0 <= i < |ts| ==> OuterStart(m, width, height, ts[i])
  }

  lemma OneMoreOuter(m: Mask, width: int, height: int, ts: seq<Start>, t: Start)
    requires AllOuter(m, width, height, ts) && IsTraceStart(m, t) && OuterStart(m, width, height, t)
    ensures AllOuter(m, width, height, ts + [t])
  {
    hide OuterStart, IsTraceStart;
  }

  /** Around a single pixel all zero pixels are joined. */
  lemma {:induction false} AroundSingle(m: Mask, width: int, height: int, q: Pt, d: Dir, k: int)
    requires IsIsolated(m, q) && Outside(m, width, height, Nb(q, d)) && 0 <= k <= 8
    ensures Outside(m, width, height, Nb(q, Rot(d, k)))
    decreases k
  {
    hide Outside;
    if k > 0 {
      AroundSingle(m, width, height, q, d, k - 1);
      var e := Rot(d, k - 1);
      assert Rot(e, 1) == Rot(d, k);
      RingBeside(q, e);
      OutsideBeside(m, width, height, Nb(q, e), Nb(q, Rot(e, 1)));
    }
  }

  lemma SingleOutside(m: Mask, width: int, height: int, q: Pt, d: Dir, e: Dir)
    requires IsIsolated(m, q) && Outside(m, width, height, Nb(q, d))
    ensures Outside(m, width, height, Nb(q, e))
  {
    var k := Arc(d, e);
    AroundSingle(m, width, height, q, d, k);
  }

  lemma ContourFaces(m: Mask, width: int, height: int, t: Start)
    requires IsTraceStart(m, t) && OuterStart(m, width, height, t) && !IsIsolated(m, t.p)
    ensures var path := ContourOf(m, t.p, t.isHole); IsBorder(m, path) && FacesOutside(m, width, height, path[0])
  {
    hide Outside;
    StartSweepsGap(m, t.p, false);
    FacesIf(m, width, height, ContourOf(m, t.p, false)[0], 4);
  }

  /** All sides that an outer contour passes face the outside. */
  lemma PassedByOutside(m: Mask, width: int, height: int, t: Start, q: Pt, d: Dir)
    requires IsTraceStart(m, t) && OuterStart(m, width, height, t) && PassedBy(m, t, q, d)
    ensures Outside(m, width, height, Nb(q, d))
  {
    hide Outside, IsBorder, Passes;
    if IsIsolated(m, t.p) {
      SingleOutside(m, width, height, q, 4, d);
    } else {
      ContourFaces(m, width, height, t);
      PassedOutside(m, width, height, ContourOf(m, t.p, t.isHole), q, d);
    }
  }

  /** An outer contour that goes through a pixel passes all its main sides that face the
      outside. */
  lemma VisitedByPasses(m: Mask, width: int, height: int, t: Start, q: Pt, d: Dir)
    requires IsTraceStart(m, t) && OuterStart(m, width, height, t) && Framed(m, width, height)
    requires VisitedBy(m, t, q) && Main(d) && Outside(m, width, height, Nb(q, d))
    ensures PassedBy(m, t, q, d)
  {
    hide Outside, Passes;
    var path := ContourOf(m, t.p, t.isHole);
    if !IsIsolated(m, t.p) {
      assert Visits(path, q) by {
        assert path[0].p == t.p;
      }
      ContourFaces(m, width, height, t);
      hide IsBorder;
      var e := VisitedPassed(m, width, height, path, q);
      SameFace(m, path, width, height, q, e, d);
    }
  }

  // ----- What the scan has moved past -----

  /** The west sides in front of the scan position that face the outside have been traced. */
  ghost predicate OuterCovered(m: Mask, width: int, height: int, ts: seq<Start>, x: int, y: int)
    requires Starts(m, ts)
  {
    forall q :: WestGap(m, q) && Before(q, Pt(x, y)) && Outside(m, width, height, Nb(q, 4)) ==> Traced(m, ts, q, 4)
  }

  lemma TracedStill(m: Mask, ts: seq<Start>, t: Start, q: Pt, d: Dir)
    requires Starts(m, ts) && IsTraceStart(m, t)
    ensures Starts(m, ts + [t])
    ensures Traced(m, ts + [t], q, d) <==> Traced(m, ts, q, d) || PassedBy(m, t, q, d)
  {
    var us := ts + [t];
    assert us[|ts|] == t;
    assert forall i :: 0 <= i < |ts| ==> us[i] == ts[i];
  }

  lemma OuterCoverPixel(m: Mask, width: int, height: int, ts: seq<Start>, x: int, y: int)
    requires Starts(m, ts) && OuterCovered(m, width, height, ts, x, y)
    requires WestGap(m, Pt(x, y)) && Outside(m, width, height, Nb(Pt(x, y), 4)) ==> Traced(m, ts, Pt(x, y), 4)
    ensures OuterCovered(m, width, height, ts, x + 1, y)
  {
    hide Outside, Traced;
    forall q | WestGap(m, q) && Before(q, Pt(x + 1, y)) && Outside(m, width, height, Nb(q, 4))
      ensures Traced(m, ts, q, 4)
    {
      assert q.y == y && q.x == x ==> q == Pt(x, y);
    }
  }

  /** Past the last column of a row. */
  lemma OuterCoverRow(m: Mask, width: int, height: int, ts: seq<Start>, x: int, y: int)
    requires Starts(m, ts) && OuterCovered(m, width, height, ts, x, y) && Framed(m, width, height) && width <= x
    ensures OuterCovered(m, width, height, ts, 1, y + 1)
  {
    hide Outside, Traced;
  }

  /** Past the last row everything is covered. */
  lemma OuterCoverAll(m: Mask, width: int, height: int, ts: seq<Start>, x: int, y: int)
    requires Starts(m, ts) && OuterCovered(m, width, height, ts, x, y) && Framed(m, width, height) && height <= y
    ensures OuterCovered(m, width, height, ts, 1, height)
  {
    hide Outside, Traced;
  }

  /** At the beginning nothing has been moved past. */
  lemma NothingToCover(m: Mask, width: int, height: int)
    requires Framed(m, width, height)
    ensures AllOuter(m, width, height, []) && OuterCovered(m, width, height, [], 1, 1)
  {
    hide Outside;
  }

  /** A start that has been traced covers its own side. */
  lemma OuterCoverStart(m: Mask, width: int, height: int, ts: seq<Start>, t: Start)
    requires AllOuter(m, width, height, ts) && OuterCovered(m, width, height, ts, t.p.x, t.p.y)
    requires IsTraceStart(m, t) && OuterStart(m, width, height, t)
    ensures AllOuter(m, width, height, ts + [t])
    ensures OuterCovered(m, width, height, ts + [t], t.p.x + 1, t.p.y)
  {
    hide Outside, Traced, PassedBy;
    OneMoreOuter(m, width, height, ts, t);
    forall q | WestGap(m, q) && Before(q, Pt(t.p.x + 1, t.p.y)) && Outside(m, width, height, Nb(q, 4))
      ensures Traced(m, ts + [t], q, 4)
    {
      TracedStill(m, ts, t, q, 4);
      if q == t.p {
        StartPassed(m, t);
      } else {
        assert Before(q, Pt(t.p.x, t.p.y));
      }
    }
  }

  lemma StartPassed(m: Mask, t: Start)
    requires IsTraceStart(m, t) && !t.isHole
    ensures PassedBy(m, t, t.p, 4)
  {
    if !IsIsolated(m, t.p) {
      StartPasses(m, t.p);
    }
  }

  /** In the part covered every main side that faces the outside has been traced: its border
      passes a west side in the same row, further left. */
  lemma OuterGapTraced(m: Mask, width: int, height: int, ts: seq<Start>, x: int, y: int, q: Pt, d: Dir)
    requires AllOuter(m, width, height, ts) && OuterCovered(m, width, height, ts, x, y) && Framed(m, width, height)
    requires IsGap(m, q, d) && Outside(m, width, height, Nb(q, d)) && Before(q, Pt(x, y))
    ensures Traced(m, ts, q, d)
  {
    hide Outside, Starts, IsIsolated, OuterCovered, OuterStart, Traced;
    if IsIsolated(m, q) {
      SingleOutside(m, width, height, q, d, 4);
      AloneInAll(m, q, 4);
      LeftCovered(m, width, height, ts, x, y, q);
      SingleTraced(m, ts, q, d);
    } else {
      var path := BorderPast(m, q, d);
      var l := WestOfBorder(m, width, height, path, q, d);
      LeftCovered(m, width, height, ts, x, y, l);
      WestShares(m, ts, path, l);
      TracedPasses(m, ts, path, q, d);
    }
  }

  /** A border past a side that faces the outside passes a west side in the same row, no further
      right, that faces it too. */
  lemma WestOfBorder(m: Mask, width: int, height: int, path: seq<State>, q: Pt, d: Dir) returns (l: Pt)
    requires IsBorder(m, path) && PassesAt(m, path[0], q, d) && Framed(m, width, height)
    requires Main(d) && Outside(m, width, height, Nb(q, d))
    ensures Passes(m, path, l, 4) && l in m && l.y == q.y && l.x <= q.x && Outside(m, width, height, Nb(l, 4))
  {
    assert |path| > 0;
    hide Outside, IsBorder, Wind;
    assert Passes(m, path, q, d);
    FacesIf(m, width, height, path[0], d);
    hide Passes, PassesAt, FacesOutside;
    Unoccupied(m, path, q, d);
    WindAcross(m, path, width, height, q, d);
    WindOutside(m, path, width, height, Nb(q, d));
    l := WestInFront(m, path, q.x, q.y);
    PassedOutside(m, width, height, path, l, 4);
    Unoccupied(m, path, l, 4);
  }

  lemma LeftCovered(m: Mask, width: int, height: int, ts: seq<Start>, x: int, y: int, l: Pt)
    requires Starts(m, ts) && OuterCovered(m, width, height, ts, x, y)
    requires l in m && Outside(m, width, height, Nb(l, 4)) && Before(l, Pt(x, y))
    ensures Traced(m, ts, l, 4)
  {
    OutsideIsZero(m, width, height, Nb(l, 4));
    assert WestGap(m, l);
  }

  lemma SingleTraced(m: Mask, ts: seq<Start>, q: Pt, d: Dir)
    requires Starts(m, ts) && IsIsolated(m, q) && Traced(m, ts, q, 4)
    ensures Traced(m, ts, q, d)
  {
    var i :| 0 <= i < |ts| && PassedBy(m, ts[i], q, 4);
    OnlyBordersPassJoined(m, ts[i], q, 4);
    assert PassedBy(m, ts[i], q, d);
  }

  lemma WestShares(m: Mask, ts: seq<Start>, path: seq<State>, l: Pt)
    requires Starts(m, ts) && IsBorder(m, path) && Passes(m, path, l, 4) && Traced(m, ts, l, 4)
    ensures !Untraced(m, ts, path)
  {
    var i :| 0 <= i < |ts| && PassedBy(m, ts[i], l, 4);
    NotAlone(m, path, l, 4);
    OnlyBordersPassJoined(m, ts[i], l, 4);
    PassedOnce(m, ContourOf(m, ts[i].p, ts[i].isHole), path, l, 4);
  }

  // ----- The last marked pixel of the row -----

  /** The values of the first pixels of row y tell the truth. */
  ghost predicate RowTrue(m: Mask, ts: seq<Start>, y: int, row: seq<int>)
    requires Starts(m, ts)
  {
    forall i :: 0 <= i < |row| ==> PixelTrue(m, ts, Pt(i, y), row[i])
  }

  ghost predicate PixelTrue(m: Mask, ts: seq<Start>, q: Pt, v: int)
    requires Starts(m, ts)
  {
    (v == 0 <==> q !in m) && (v != 0 ==> TellsTruth(m, ts, q, v))
  }

  predicate Marked(v: int) { v != 0 && v != 1 }

  /** Position l is the first of the equal values that end with the last marked pixel of the
      row, or 0 if there is none. */
  ghost predicate LastMark(row: seq<int>, l: int) {
    && 0 <= l < |row| && (l > 0 ==> Marked(row[l]))
    && exists r :: l <= r < |row| && MarkEnds(row, l, r)
  }

  ghost predicate MarkEnds(row: seq<int>, l: int, r: int)
    requires 0 <= l <= r < |row|
  {
    (forall i :: l <= i <= r ==> row[i] == row[l]) && (forall i :: r < i < |row| ==> !Marked(row[i]))
  }

  /** How the scan moves the mark on over value p at position x. */
  predicate Moves(prev: int, p: int, l: int, l1: int, x: int) {
    if p == prev then l1 == l
    else if Marked(p) then l1 == x
    else l1 == l || (Marked(prev) && l1 == x - 1)
  }

  lemma MarkMoves(row: seq<int>, l: int, p: int, l1: int)
    requires LastMark(row, l) && row[0] == 0 && Moves(row[|row| - 1], p, l, l1, |row|)
    ensures LastMark(row + [p], l1)
  {
    var n := |row|;
    var longer := row + [p];
    var prev := row[n - 1];
    var r :| l <= r < n && MarkEnds(row, l, r);
    if p == prev && Marked(p) {
      assert r == n - 1;
      assert MarkEnds(longer, l1, n);
    } else if Marked(p) {
      assert MarkEnds(longer, l1, n);
    } else if l1 == l {
      assert MarkEnds(longer, l1, r);
    } else {
      assert MarkEnds(longer, l1, n - 1);
    }
  }

  lemma JustMarked(row: seq<int>)
    requires row != [] && Marked(row[|row| - 1])
    ensures LastMark(row, |row| - 1)
  {
    assert MarkEnds(row, |row| - 1, |row| - 1);
  }

  /** Where the outside lies at a, it goes on to the end of the row if no marked pixel follows:
      an unmarked pixel there would have been traced. */
  lemma {:induction false} ClearFrom(m: Mask, width: int, height: int, ts: seq<Start>, y: int, row: seq<int>, a: int,
                                     b: int)
    requires AllOuter(m, width, height, ts) && OuterCovered(m, width, height, ts, |row|, y)
    requires RowTrue(m, ts, y, row) && 0 <= a <= b < |row| && row[a] == 0 && Outside(m, width, height, Pt(a, y))
    requires forall i :: a < i < |row| ==> !Marked(row[i])
    ensures row[b] == 0 && Outside(m, width, height, Pt(b, y))
    decreases b - a
  {
    hide Outside, Traced;
    if b > a {
      ClearFrom(m, width, height, ts, y, row, a, b - 1);
      var q := Pt(b, y);
      assert Nb(q, 4) == Pt(b - 1, y);
      assert PixelTrue(m, ts, q, row[b]) && PixelTrue(m, ts, Pt(b - 1, y), row[b - 1]);
      if row[b] != 0 {
        assert WestGap(m, q);
        TracedIsVisited(m, ts, q, 4);
      } else {
        OutsideBeside(m, width, height, Pt(b - 1, y), q);
      }
    }
  }

  lemma TracedIsVisited(m: Mask, ts: seq<Start>, q: Pt, d: Dir)
    requires Starts(m, ts) && Traced(m, ts, q, d)
    ensures Visited(m, ts, q)
  {
    var i :| 0 <= i < |ts| && PassedBy(m, ts[i], q, d);
    assert VisitedBy(m, ts[i], q);
  }

  lemma TracedIsSwept(m: Mask, ts: seq<Start>, q: Pt)
    requires Starts(m, ts)
    ensures Traced(m, ts, q, 0) <==> Swept(m, ts, q)
  {
    forall i | 0 <= i < |ts|
      ensures SweptBy(m, ts[i], q) <==> PassedBy(m, ts[i], q, 0)
    {
      SweptIsPassed(m, ts[i], q);
    }
  }

  /** The last nonzero pixel of a row that has one. */
  lemma {:induction false} LastNonzero(row: seq<int>, r: int, n: int) returns (k: int)
    requires 0 <= r < n <= |row| && row[r] != 0
    ensures r <= k < n && row[k] != 0 && forall i :: k < i < n ==> row[i] == 0
    decreases n
  {
    if row[n - 1] != 0 {
      k := n - 1;
    } else {
      k := LastNonzero(row, r, n - 1);
    }
  }

  /** If the mark is positive the zero pixel at the end of the row is not outside: the last
      nonzero pixel in front of it would have been passed on its east side. */
  lemma PositiveMark(m: Mask, width: int, height: int, ts: seq<Start>, y: int, row: seq<int>, l: int)
    requires AllOuter(m, width, height, ts) && OuterCovered(m, width, height, ts, |row|, y)
    requires RowTrue(m, ts, y, row) && LastMark(row, l) && row[|row| - 1] == 0 && row[l] > 0
    requires Framed(m, width, height)
    ensures !Outside(m, width, height, Pt(|row| - 1, y))
  {
    hide Outside, OuterStart, Starts, OuterCovered, TellsTruth, Traced, Swept, Visited;
    var n := |row|;
    if Outside(m, width, height, Pt(n - 1, y)) {
      var r :| l <= r < n && MarkEnds(row, l, r);
      var k := LastNonzero(row, r, n);
      forall i | k < i < n
        ensures Pt(i, y) !in m
      {
        assert PixelTrue(m, ts, Pt(i, y), row[i]);
      }
      OutsideAlong(m, width, height, y, n - 1, k + 1);
      var q := Pt(k, y);
      assert Nb(q, 0) == Pt(k + 1, y) && PixelTrue(m, ts, q, row[k]);
      OuterGapTraced(m, width, height, ts, n, y, q, 0);
      TracedIsSwept(m, ts, q);
      NegativeIs(m, ts, q, row[k]);
    }
  }

  lemma NegativeIs(m: Mask, ts: seq<Start>, q: Pt, v: int)
    requires Starts(m, ts) && TellsTruth(m, ts, q, v)
    ensures v < 0 <==> Swept(m, ts, q)
    ensures v == 1 <==> !Visited(m, ts, q)
    ensures v != 0
  {
  }

  /** If it is not, the zero pixel is outside: so is the one behind a negative mark, or the frame. */
  lemma NoPositiveMark(m: Mask, width: int, height: int, ts: seq<Start>, y: int, row: seq<int>, l: int)
    requires AllOuter(m, width, height, ts) && OuterCovered(m, width, height, ts, |row|, y)
    requires RowTrue(m, ts, y, row) && LastMark(row, l) && row[|row| - 1] == 0 && row[l] <= 0
    requires Framed(m, width, height)
    ensures Outside(m, width, height, Pt(|row| - 1, y))
  {
    hide Outside, TellsTruth, OuterCovered, OuterStart, Starts, Traced, Swept, Visited;
    var n := |row|;
    var r :| l <= r < n && MarkEnds(row, l, r);
    assert PixelTrue(m, ts, Pt(0, y), row[0]);
    if l == 0 {
      OnFrameOutside(m, width, height, Pt(0, y));
      ClearFrom(m, width, height, ts, y, row, 0, n - 1);
    } else {
      var q := Pt(l, y);
      assert PixelTrue(m, ts, q, row[l]) && PixelTrue(m, ts, Pt(l + 1, y), row[l + 1]);
      NegativeIs(m, ts, q, row[l]);
      SweptOutside(m, width, height, ts, q);
      assert Nb(q, 0) == Pt(l + 1, y);
      OutsideIsZero(m, width, height, Pt(l + 1, y));
      assert r == l;
      ClearFrom(m, width, height, ts, y, row, l + 1, n - 1);
    }
  }

  lemma SweptOutside(m: Mask, width: int, height: int, ts: seq<Start>, q: Pt)
    requires AllOuter(m, width, height, ts) && Swept(m, ts, q)
    ensures Outside(m, width, height, Nb(q, 0))
  {
    hide Outside, SweptBy;
    var i :| 0 <= i < |ts| && SweptBy(m, ts[i], q);
    SweptIsPassed(m, ts[i], q);
    PassedByOutside(m, width, height, ts[i], q, 0);
  }

  /** So the sign of the last mark tells whether the zero pixel at the end of the row is outside. */
  lemma MarkDecides(m: Mask, width: int, height: int, ts: seq<Start>, y: int, row: seq<int>, l: int)
    requires AllOuter(m, width, height, ts) && OuterCovered(m, width, height, ts, |row|, y)
    requires RowTrue(m, ts, y, row) && LastMark(row, l) && row[|row| - 1] == 0 && Framed(m, width, height)
    ensures row[l] > 0 <==> !Outside(m, width, height, Pt(|row| - 1, y))
  {
    hide Outside, OuterStart, Starts, OuterCovered, RowTrue, MarkEnds;
    if row[l] > 0 {
      PositiveMark(m, width, height, ts, y, row, l);
    } else {
      NoPositiveMark(m, width, height, ts, y, row, l);
    }
  }

  /** A visited pixel needs no start: the contour through it passes its west side too. */
  lemma VisitedIsCovered(m: Mask, width: int, height: int, ts: seq<Start>, q: Pt)
    requires AllOuter(m, width, height, ts) && Framed(m, width, height) && Visited(m, ts, q)
    requires Outside(m, width, height, Nb(q, 4))
    ensures Traced(m, ts, q, 4)
  {
    hide Outside, VisitedBy, PassedBy;
    var i :| 0 <= i < |ts| && VisitedBy(m, ts[i], q);
    VisitedByPasses(m, width, height, ts[i], q, 4);
  }

  // ----- What the whole scan finds -----

  /** The outer contours: all of them start at the outside, and no two in one component; the main
      sides that face the outside lie on exactly one contour, the others on none. */
  ghost predicate TracesOuter(m: Mask, width: int, height: int, ts: seq<Start>)
    requires Starts(m, ts)
  {
    && (forall i :: 0 <= i < |ts| ==> OuterStart(m, width, height, ts[i]))
    && (forall q, d: Dir :: IsGap(m, q, d) ==> FacesRight(m, width, height, ts, q, d))
    && (forall i, j :: 0 <= i < j < |ts| ==> !SameComponent(m, ts[i].p, ts[j].p))
  }

  ghost predicate FacesRight(m: Mask, width: int, height: int, ts: seq<Start>, q: Pt, d: Dir)
    requires Starts(m, ts)
  {
    if Outside(m, width, height, Nb(q, d)) then TracedOnce(m, ts, q, d) else !Traced(m, ts, q, d)
  }

  lemma GapFacesRight(m: Mask, width: int, height: int, ts: seq<Start>, q: Pt, d: Dir)
    requires AllOuter(m, width, height, ts) && AllApart(m, ts) && OuterCovered(m, width, height, ts, 1, height)
    requires Framed(m, width, height) && IsGap(m, q, d)
    ensures FacesRight(m, width, height, ts, q, d)
  {
    hide Outside, OuterCovered, AllApart, PassedBy;
    if Outside(m, width, height, Nb(q, d)) {
      OuterGapTraced(m, width, height, ts, 1, height, q, d);
      hide AllOuter, Traced;
      forall i, j | 0 <= i < j < |ts| && PassedBy(m, ts[i], q, d)
        ensures !PassedBy(m, ts[j], q, d)
      {
        PassedByOne(m, ts, i, j, q, d);
      }
    } else if Traced(m, ts, q, d) {
      var i :| 0 <= i < |ts| && PassedBy(m, ts[i], q, d);
      PassedByOutside(m, width, height, ts[i], q, d);
    }
  }

  /** Two outer contours of one component would be the same. */
  lemma OnePerComponent(m: Mask, width: int, height: int, t: Start, u: Start)
    requires IsTraceStart(m, t) && IsTraceStart(m, u) && Apart(m, t, u) && Framed(m, width, height)
    requires OuterStart(m, width, height, t) && OuterStart(m, width, height, u)
    ensures !SameComponent(m, t.p, u.p)
  {
    hide Outside, Apart, SameComponent;
    if SameComponent(m, t.p, u.p) {
      StartPassed(m, t);
      StartPassed(m, u);
      if IsIsolated(m, t.p) {
        SingleComponent(m, t.p, u.p);
      } else {
        ContourFaces(m, width, height, t);
        hide IsBorder, Passes;
        OneOuterBorder(m, ContourOf(m, t.p, t.isHole), width, height, t.p, 4, u.p, 4);
        assert PassedBy(m, t, u.p, 4);
      }
      BothPass(m, t, u, u.p, 4);
    }
  }

  lemma TouchingIsNeighbour(p: Pt, q: Pt) returns (d: Dir)
    requires Touching(p, q) && p != q
    ensures q == Nb(p, d)
  {
    d := if q.x > p.x then (if q.y < p.y then 1 else if q.y == p.y then 0 else 7)
         else if q.x == p.x then (if q.y < p.y then 2 else 6)
         else (if q.y < p.y then 3 else if q.y == p.y then 4 else 5);
  }

  lemma {:induction false} SingleChain(m: Mask, c: seq<Pt>, i: nat)
    requires IsChain(m, c) && IsIsolated(m, c[0]) && i < |c|
    ensures c[i] == c[0]
  {
    if i > 0 {
      SingleChain(m, c, i - 1);
      assert Touching(c[i - 1], c[i]) && c[i] in m;
      if c[i] != c[0] {
        var d := TouchingIsNeighbour(c[0], c[i]);
      }
    }
  }

  lemma SingleComponent(m: Mask, p: Pt, q: Pt)
    requires SameComponent(m, p, q) && IsIsolated(m, p)
    ensures q == p
  {
    var c :| ChainJoins(m, c, p, q);
    SingleChain(m, c, |c| - 1);
  }

  /** After a whole scan for outer contours. */
  lemma OuterScanFinds(m: Mask, width: int, height: int, ts: seq<Start>)
    requires AllOuter(m, width, height, ts) && AllApart(m, ts) && OuterCovered(m, width, height, ts, 1, height)
    requires Framed(m, width, height)
    ensures TracesOuter(m, width, height, ts)
  {
    hide Outside, OuterCovered, FacesRight, SameComponent, Apart, IsStart, OuterStart;
    forall q, d: Dir | IsGap(m, q, d)
      ensures FacesRight(m, width, height, ts, q, d)
    {
      GapFacesRight(m, width, height, ts, q, d);
    }
    forall i, j | 0 <= i < j < |ts|
      ensures !SameComponent(m, ts[i].p, ts[j].p)
    {
      assert Apart(m, ts[i], ts[j]);
      OnePerComponent(m, width, height, ts[i], ts[j]);
    }
  }
}
