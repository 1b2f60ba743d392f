/** The borders traced so far.

    The marks left in the image say which pixels have been visited and which east sides passed;
    from them alone it can be told whether a border has been traced before.  A scan that has
    looked at every west and east side has traced the borders of all sides. */
module TracedBorders {
  import opened PixelGrid
  import opened ContourCodes
  import opened BorderFollowing
  import opened BorderGaps

  /** Where a trace started: the pixel, and whether its gap is to the east or the west. */
  datatype Start = Start(p: Pt, isHole: bool)

  ghost predicate IsTraceStart(m: Mask, t: Start) {
    IsStart(m, t.p, t.isHole)
  }

  /** The contour of t goes through pixel q. */
  ghost predicate VisitedBy(m: Mask, t: Start, q: Pt)
    requires IsTraceStart(m, t)
  {
    q == t.p || Visits(ContourOf(m, t.p, t.isHole), q)
  }

  /** The contour of t passes side d of pixel q. */
  ghost predicate PassedBy(m: Mask, t: Start, q: Pt, d: Dir)
    requires IsTraceStart(m, t)
  {
    if IsIsolated(m, t.p) then q == t.p
    else Passes(m, ContourOf(m, t.p, t.isHole), q, d)
  }

  /** The contour of t passes the east side of pixel q. */
  ghost predicate SweptBy(m: Mask, t: Start, q: Pt)
    requires IsTraceStart(m, t)
  {
    if IsIsolated(m, t.p) then q == t.p
    else SweepsEastOf(m, ContourOf(m, t.p, t.isHole), q)
  }

  lemma SweptIsPassed(m: Mask, t: Start, q: Pt)
    requires IsTraceStart(m, t)
    ensures SweptBy(m, t, q) <==> PassedBy(m, t, q, 0)
  {
    if !IsIsolated(m, t.p) {
      var path := ContourOf(m, t.p, t.isHole);
      assert forall i :: 0 <= i < |path| && PassesAt(m, path[i], q, 0) ==> path[i].p == q && Sweeps(m, path[i], 0);
      assert forall i :: 0 <= i < |path| && IsState(m, path[i]) && path[i].p == q && Sweeps(m, path[i], 0) ==>
             PassesAt(m, path[i], q, 0);
    }
  }

  ghost predicate Starts(m: Mask, ts: seq<Start>) {
    forall i :: 0 <= i < |ts| ==> IsTraceStart(m, ts[i])
  }

  ghost predicate Visited(m: Mask, ts: seq<Start>, q: Pt)
    requires Starts(m, ts)
  {
    exists i :: 0 <= i < |ts| && VisitedBy(m, ts[i], q)
  }

  ghost predicate Swept(m: Mask, ts: seq<Start>, q: Pt)
    requires Starts(m, ts)
  {
    exists i :: 0 <= i < |ts| && SweptBy(m, ts[i], q)
  }

  /** What the value of a nonzero pixel says: 1, not visited yet; negative, visited and its
      east side passed; anything else, visited only. */
  ghost predicate TellsTruth(m: Mask, ts: seq<Start>, q: Pt, v: int)
    requires Starts(m, ts)
  {
    && v != 0 && -128 <= v < 128
    && (v == 1 <==> !Visited(m, ts, q))
    && (v < 0 <==> Swept(m, ts, q))
  }

  /** Two traces that have no border state in common. */
  ghost predicate Apart(m: Mask, t: Start, u: Start)
    requires IsTraceStart(m, t) && IsTraceStart(m, u)
  {
    && (t.p == u.p ==> !IsIsolated(m, t.p))
    && forall a :: a in ContourOf(m, t.p, t.isHole) ==> a !in ContourOf(m, u.p, u.isHole)
  }

  ghost predicate AllApart(m: Mask, ts: seq<Start>)
    requires Starts(m, ts)
  {
    forall i, j :: 0 <= i < j < |ts| ==> Apart(m, ts[i], ts[j])
  }

  // ----- One more contour -----

  lemma OneMoreVisited(m: Mask, ts: seq<Start>, t: Start, q: Pt)
    requires Starts(m, ts) && IsTraceStart(m, t)
    ensures Starts(m, ts + [t])
    ensures Visited(m, ts + [t], q) <==> Visited(m, ts, q) || VisitedBy(m, t, q)
  {
    var us := ts + [t];
    assert us[|ts|] == t;
    assert forall i :: 0 <= i < |ts| ==> us[i] == ts[i];
  }

  lemma OneMoreSwept(m: Mask, ts: seq<Start>, t: Start, q: Pt)
    requires Starts(m, ts) && IsTraceStart(m, t)
    ensures Starts(m, ts + [t])
    ensures Swept(m, ts + [t], q) <==> Swept(m, ts, q) || SweptBy(m, t, q)
  {
    var us := ts + [t];
    assert us[|ts|] == t;
    assert forall i :: 0 <= i < |ts| ==> us[i] == ts[i];
  }

  /** Tracing keeps the marks truthful. */
  lemma MarksStayTrue(m: Mask, ts: seq<Start>, t: Start, q: Pt, v: int, nbd: int)
    requires Starts(m, ts) && IsTraceStart(m, t) && q in m && 1 < nbd < 128
    requires TellsTruth(m, ts, q, v)
    ensures Starts(m, ts + [t])
    ensures TellsTruth(m, ts + [t], q, MarkContour(m, t.p, t.isHole, q, v, nbd))
  {
    OneMoreVisited(m, ts, t, q);
    OneMoreSwept(m, ts, t, q);
    var path := ContourOf(m, t.p, t.isHole);
    if path != [] {
      MarkMeaning(m, path, q, v, nbd);
      assert VisitedBy(m, t, q) <==> Visits(path, q);
    }
  }

  /** The test the scanner makes before it starts a trace at t. */
  ghost predicate LooksNew(t: Start, v: int) {
    if t.isHole then v >= 1 else v == 1
  }

  /** A start that looks new is on no border traced before. */
  lemma LooksNewIsNew(m: Mask, ts: seq<Start>, t: Start, v: int)
    requires Starts(m, ts) && IsTraceStart(m, t)
    requires TellsTruth(m, ts, t.p, v) && LooksNew(t, v)
    ensures forall i :: 0 <= i < |ts| ==> Apart(m, ts[i], t)
  {
    forall i | 0 <= i < |ts|
      ensures Apart(m, ts[i], t)
    {
      NotTracedBefore(m, ts[i], t);
    }
  }

  lemma NotTracedBefore(m: Mask, u: Start, t: Start)
    requires IsTraceStart(m, u) && IsTraceStart(m, t)
    requires if t.isHole then !SweptBy(m, u, t.p) else !VisitedBy(m, u, t.p)
    ensures Apart(m, u, t)
  {
    forall a | a in ContourOf(m, u.p, u.isHole)
      ensures a !in ContourOf(m, t.p, t.isHole)
    {
      if a in ContourOf(m, t.p, t.isHole) {
        SharedStateIsWholeBorder(m, u, t, a);
      }
    }
  }

  /** If the borders of two traces meet, each contains the first step of the other. */
  lemma SharedStateIsWholeBorder(m: Mask, u: Start, t: Start, a: State)
    requires IsTraceStart(m, u) && IsTraceStart(m, t)
    requires a in ContourOf(m, u.p, u.isHole) && a in ContourOf(m, t.p, t.isHole)
    ensures VisitedBy(m, u, t.p)
    ensures t.isHole ==> SweptBy(m, u, t.p)
  {
    var p, q := ContourOf(m, u.p, u.isHole), ContourOf(m, t.p, t.isHole);
    BordersDisjointOrEqual(m, p, q, a);
    assert q[0] in p;
    var i :| 0 <= i < |p| && p[i] == q[0];
    StartSweepsGap(m, t.p, t.isHole);
  }

  lemma ApartExtends(m: Mask, ts: seq<Start>, t: Start)
    requires Starts(m, ts) && IsTraceStart(m, t) && AllApart(m, ts)
    requires forall i :: 0 <= i < |ts| ==> Apart(m, ts[i], t)
    ensures Starts(m, ts + [t]) && AllApart(m, ts + [t])
  {
  }

  lemma NewStart(m: Mask, ts: seq<Start>, t: Start, v: int)
    requires Starts(m, ts) && AllApart(m, ts) && IsTraceStart(m, t)
    requires TellsTruth(m, ts, t.p, v) && LooksNew(t, v)
    ensures Starts(m, ts + [t]) && AllApart(m, ts + [t])
  {
    LooksNewIsNew(m, ts, t, v);
    ApartExtends(m, ts, t);
  }

  /** Each side is passed by at most one of the contours. */
  lemma PassedByOne(m: Mask, ts: seq<Start>, i: nat, j: nat, q: Pt, d: Dir)
    requires Starts(m, ts) && AllApart(m, ts)
    requires i < j < |ts| && PassedBy(m, ts[i], q, d)
    ensures !PassedBy(m, ts[j], q, d)
  {
    assert Apart(m, ts[i], ts[j]);
    if PassedBy(m, ts[j], q, d) {
      BothPass(m, ts[i], ts[j], q, d);
    }
  }

  lemma BothPass(m: Mask, t: Start, u: Start, q: Pt, d: Dir)
    requires IsTraceStart(m, t) && IsTraceStart(m, u)
    requires PassedBy(m, t, q, d) && PassedBy(m, u, q, d)
    ensures !Apart(m, t, u)
  {
    if IsIsolated(m, t.p) || IsIsolated(m, u.p) {
      OnlyBordersPassJoined(m, t, q, d);
      OnlyBordersPassJoined(m, u, q, d);
    } else {
      PassedOnce(m, ContourOf(m, t.p, t.isHole), ContourOf(m, u.p, u.isHole), q, d);
    }
  }

  /** A pixel on a traced border has a nonzero neighbour. */
  lemma OnlyBordersPassJoined(m: Mask, t: Start, q: Pt, d: Dir)
    requires IsTraceStart(m, t) && PassedBy(m, t, q, d)
    ensures IsIsolated(m, q) <==> IsIsolated(m, t.p)
    ensures IsIsolated(m, q) ==> q == t.p
  {
  }

  /** The east neighbour of q is a zero pixel the scan looks at. */
  ghost predicate EastGap(m: Mask, width: int, q: Pt) {
    q in m && Nb(q, 0) !in m && q.x + 1 < width
  }

  ghost predicate WestGap(m: Mask, q: Pt) {
    q in m && Nb(q, 4) !in m
  }

  /** Raster order. */
  predicate Before(p: Pt, q: Pt) {
    p.y < q.y || (p.y == q.y && p.x < q.x)
  }

  /** All contours found so far begin before the scan position. */
  ghost predicate FoundBefore(ts: seq<Start>, x: int, y: int) {
    forall i :: 0 <= i < |ts| ==> Before(ts[i].p, Pt(x, y))
  }

  lemma FoundBeforeLater(ts: seq<Start>, x: int, y: int, x1: int, y1: int)
    requires FoundBefore(ts, x, y) && (y < y1 || (y == y1 && x <= x1))
    ensures FoundBefore(ts, x1, y1)
  {
  }

  lemma LastVisited(m: Mask, ts: seq<Start>)
    requires Starts(m, ts) && |ts| > 0
    ensures Visited(m, ts, ts[|ts| - 1].p)
  {
    assert VisitedBy(m, ts[|ts| - 1], ts[|ts| - 1].p);
  }

  lemma FoundNow(ts: seq<Start>, t: Start, x: int, y: int)
    requires FoundBefore(ts, x, y) && t.p.y == y && t.p.x <= x
    ensures FoundBefore(ts + [t], x + 1, y)
  {
  }

  lemma VisitedBefore(m: Mask, ts: seq<Start>, x: int, y: int)
    requires Starts(m, ts) && FoundBefore(ts, x, y) && Visited(m, ts, Pt(x, y))
    ensures VisitedEarly(m, ts, Pt(x, y))
  {
  }

  /** A contour that goes through q had been found when the scan reached q, or began there. */
  ghost predicate VisitedEarly(m: Mask, ts: seq<Start>, q: Pt)
    requires Starts(m, ts)
  {
    exists i :: 0 <= i < |ts| && VisitedBy(m, ts[i], q) && (Before(ts[i].p, q) || ts[i] == Start(q, false))
  }

  lemma OneMoreEarly(m: Mask, ts: seq<Start>, t: Start, q: Pt)
    requires Starts(m, ts) && IsTraceStart(m, t) && VisitedEarly(m, ts, q)
    ensures Starts(m, ts + [t]) && VisitedEarly(m, ts + [t], q)
  {
    hide IsStart, VisitedBy;
    var us := ts + [t];
    assert forall i :: 0 <= i < |ts| ==> us[i] == ts[i];
    var i :| 0 <= i < |ts| && VisitedBy(m, ts[i], q) && (Before(ts[i].p, q) || ts[i] == Start(q, false));
    assert us[i] == ts[i];
  }

  lemma JustFound(m: Mask, ts: seq<Start>, q: Pt)
    requires Starts(m, ts) && IsTraceStart(m, Start(q, false))
    ensures Starts(m, ts + [Start(q, false)]) && VisitedEarly(m, ts + [Start(q, false)], q)
  {
    var us := ts + [Start(q, false)];
    assert us[|ts|] == Start(q, false) && VisitedBy(m, us[|ts|], q);
  }

  /** What the scan knows of the gaps it has moved past: the contours of the east ones are
      traced, and a contour went through the pixels of the west ones. */
  ghost predicate Covered(m: Mask, ts: seq<Start>, width: int, x: int, y: int)
    requires Starts(m, ts)
  {
    && (forall q :: EastGap(m, width, q) && (q.y < y || (q.y == y && q.x + 1 < x)) ==> Swept(m, ts, q))
    && (forall q :: WestGap(m, q) && (q.y < y || (q.y == y && q.x < x)) ==> VisitedEarly(m, ts, q))
  }

  /** Moving past column x of row y. */
  lemma CoverPixel(m: Mask, ts: seq<Start>, width: int, x: int, y: int)
    requires Starts(m, ts) && Covered(m, ts, width, x, y) && x < width
    requires EastGap(m, width, Pt(x - 1, y)) ==> Swept(m, ts, Pt(x - 1, y))
    requires WestGap(m, Pt(x, y)) ==> VisitedEarly(m, ts, Pt(x, y))
    ensures Covered(m, ts, width, x + 1, y)
  {
    forall q | EastGap(m, width, q) && (q.y < y || (q.y == y && q.x + 1 < x + 1))
      ensures Swept(m, ts, q)
    {
      assert q.y == y && q.x + 1 == x ==> q == Pt(x - 1, y);
    }
    forall q | WestGap(m, q) && (q.y < y || (q.y == y && q.x < x + 1))
      ensures VisitedEarly(m, ts, q)
    {
      assert q.y == y && q.x == x ==> q == Pt(x, y);
    }
  }

  /** Moving on to the next row. */
  lemma CoverRow(m: Mask, ts: seq<Start>, width: int, height: int, y: int)
    requires Starts(m, ts) && Covered(m, ts, width, width, y) && Framed(m, width, height)
    ensures Covered(m, ts, width, 1, y + 1)
  {
  }

  /** Past the last row everything is covered. */
  lemma CoverAll(m: Mask, ts: seq<Start>, width: int, height: int, x: int, y: int)
    requires Starts(m, ts) && Covered(m, ts, width, x, y) && height <= y
    ensures Framed(m, width, height) ==> Covered(m, ts, width, 1, height)
  {
  }

  lemma CoverMoreStarts(m: Mask, ts: seq<Start>, t: Start, width: int, x: int, y: int)
    requires Starts(m, ts) && IsTraceStart(m, t) && Covered(m, ts, width, x, y)
    ensures Starts(m, ts + [t]) && Covered(m, ts + [t], width, x, y)
  {
    forall q | EastGap(m, width, q) && (q.y < y || (q.y == y && q.x + 1 < x))
      ensures Swept(m, ts + [t], q)
    {
      OneMoreSwept(m, ts, t, q);
    }
    forall q | WestGap(m, q) && (q.y < y || (q.y == y && q.x < x))
      ensures VisitedEarly(m, ts + [t], q)
    {
      OneMoreEarly(m, ts, t, q);
    }
  }

  /** A traced start covers the gap it was found at. */
  lemma CoverStart(m: Mask, ts: seq<Start>, t: Start, width: int, x: int, y: int)
    requires Starts(m, ts) && IsTraceStart(m, t) && Covered(m, ts, width, x, y) && x < width
    requires t.p == Pt(if t.isHole then x - 1 else x, y)
    ensures Starts(m, ts + [t]) && Covered(m, ts + [t], width, x + 1, y)
  {
    CoverMoreStarts(m, ts, t, width, x, y);
    var q, r := Pt(x - 1, y), Pt(x, y);
    assert Nb(q, 0) == r && Nb(r, 4) == q;
    OneMoreSwept(m, ts, t, q);
    if t == Start(r, false) {
      JustFound(m, ts, r);
    }
    if !IsIsolated(m, t.p) {
      StartSweepsGap(m, t.p, t.isHole);
      assert ContourOf(m, t.p, t.isHole)[0].p == t.p;
    }
    CoverPixel(m, ts + [t], width, x, y);
  }

  // ----- Every border is traced -----

  /** None of the contours has a state of this border. */
  ghost predicate Untraced(m: Mask, ts: seq<Start>, path: seq<State>)
    requires Starts(m, ts)
  {
    forall i, a :: 0 <= i < |ts| && a in ContourOf(m, ts[i].p, ts[i].isHole) ==> a !in path
  }

  /** An untraced border passes none of the east sides the scan looked at. */
  lemma UntracedNoEast(m: Mask, ts: seq<Start>, width: int, height: int, path: seq<State>)
    requires Starts(m, ts) && Framed(m, width, height) && Covered(m, ts, width, 1, height)
    requires IsBorder(m, path) && Untraced(m, ts, path)
    ensures NoEast(m, path, width)
  {
    forall q | Passes(m, path, q, 0)
      ensures q.x + 1 >= width
    {
      Unoccupied(m, path, q, 0);
      if q.x + 1 < width {
        assert EastGap(m, width, q);
        var i :| 0 <= i < |ts| && SweptBy(m, ts[i], q);
        SweptIsPassed(m, ts[i], q);
        NotAlone(m, path, q, 0);
        OnlyBordersPassJoined(m, ts[i], q, 0);
        PassedOnce(m, ContourOf(m, ts[i].p, ts[i].isHole), path, q, 0);
      }
    }
  }

  lemma NotAlone(m: Mask, path: seq<State>, q: Pt, d: Dir)
    requires Passes(m, path, q, d)
    ensures !IsIsolated(m, q)
  {
  }

  /** Nor any west side: going up along them leads to one that nothing lies above, and no
      contour found before can have gone through its pixel. */
  lemma UntracedNoWest(m: Mask, ts: seq<Start>, width: int, height: int, path: seq<State>, l: Pt)
    requires Starts(m, ts) && Framed(m, width, height) && Covered(m, ts, width, 1, height)
    requires IsBorder(m, path) && Untraced(m, ts, path)
    ensures !Passes(m, path, l, 4)
  {
    if Passes(m, path, l, 4) {
      hide Passes, IsBorder, Untraced, IsOutline, Starts, Swept, VisitedEarly, EastGap;
      UntracedNoEast(m, ts, width, height, path);
      var p, left := OutlineOf(m, path, width, height, l);
      assert WestGap(m, p) && VisitedEarly(m, ts, p) by {
        assert Framed(m, width, height);
      }
      VisitedIsTraced(m, ts, width, height, path, left, p);
    }
  }

  lemma VisitedIsTraced(m: Mask, ts: seq<Start>, width: int, height: int, path: seq<State>, left: seq<Pt>, p: Pt)
    requires Starts(m, ts) && Framed(m, width, height) && VisitedEarly(m, ts, p)
    requires IsBorder(m, path) && Passes(m, path, p, 4) && IsOutline(m, left, width) && left[0] == p
    ensures !Untraced(m, ts, path)
  {
    hide Passes, IsBorder, IsOutline, VisitedBy;
    var i :| 0 <= i < |ts| && VisitedBy(m, ts[i], p) && (Before(ts[i].p, p) || ts[i] == Start(p, false));
    NotEarly(m, ts[i], left, width, height, p);
    NotAlone(m, path, p, 4);
    StartPasses(m, p);
    PassedOnce(m, ContourOf(m, p, false), path, p, 4);
  }

  /** A contour through the first pixel of an outline does not begin before it. */
  lemma NotEarly(m: Mask, t: Start, left: seq<Pt>, width: int, height: int, p: Pt)
    requires IsTraceStart(m, t) && VisitedBy(m, t, p) && Framed(m, width, height)
    requires IsOutline(m, left, width) && left[0] == p
    ensures !Before(t.p, p)
  {
    if t.p != p {
      var path := ContourOf(m, t.p, t.isHole);
      var j :| 0 <= j < |path| && path[j].p == p;
      BorderWithin(m, left, width, height, path, j);
    }
  }

  lemma StartPasses(m: Mask, p: Pt)
    requires IsTraceStart(m, Start(p, false)) && !IsIsolated(m, p)
    ensures Passes(m, ContourOf(m, p, false), p, 4)
  {
    StartSweepsGap(m, p, false);
    assert PassesAt(m, ContourOf(m, p, false)[0], p, 4);
  }

  /** The zero neighbour in one of the four main directions. */
  ghost predicate IsGap(m: Mask, q: Pt, d: Dir) {
    q in m && Nb(q, d) !in m && d % 2 == 0
  }

  ghost predicate Traced(m: Mask, ts: seq<Start>, q: Pt, d: Dir)
    requires Starts(m, ts)
  {
    exists i :: 0 <= i < |ts| && PassedBy(m, ts[i], q, d)
  }

  /** After a whole scan the border of every gap has been traced. */
  lemma EveryGapTraced(m: Mask, ts: seq<Start>, width: int, height: int, q: Pt, d: Dir)
    requires Starts(m, ts) && Framed(m, width, height) && Covered(m, ts, width, 1, height) && IsGap(m, q, d)
    ensures Traced(m, ts, q, d)
  {
    if IsIsolated(m, q) {
      hide Starts, IsIsolated, Swept, VisitedEarly, EastGap;
      assert WestGap(m, q) && VisitedEarly(m, ts, q) by {
        assert Nb(q, 4) !in m by {
          AloneInAll(m, q, 4);
        }
        assert Framed(m, width, height);
      }
      AloneIsTraced(m, ts, q, d);
    } else {
      hide Covered, Passes, IsBorder, Untraced, Starts;
      var path := BorderPast(m, q, d);
      if Untraced(m, ts, path) {
        UntracedNoEast(m, ts, width, height, path);
        var l := AnyToWest(m, path, width, height, q, d);
        UntracedNoWest(m, ts, width, height, path, l);
      }
      TracedPasses(m, ts, path, q, d);
    }
  }

  lemma AloneInAll(m: Mask, q: Pt, d: Dir)
    requires IsIsolated(m, q)
    ensures Nb(q, d) !in m
  {
  }

  lemma AloneIsTraced(m: Mask, ts: seq<Start>, q: Pt, d: Dir)
    requires Starts(m, ts) && IsIsolated(m, q) && VisitedEarly(m, ts, q)
    ensures Traced(m, ts, q, d)
  {
    var i :| 0 <= i < |ts| && VisitedBy(m, ts[i], q);
    OnlyJoinedVisited(m, ts[i], q);
    assert PassedBy(m, ts[i], q, d);
  }

  lemma OnlyJoinedVisited(m: Mask, t: Start, q: Pt)
    requires IsTraceStart(m, t) && VisitedBy(m, t, q) && IsIsolated(m, q)
    ensures q == t.p
  {
  }

  lemma TracedPasses(m: Mask, ts: seq<Start>, path: seq<State>, q: Pt, d: Dir)
    requires Starts(m, ts) && IsBorder(m, path) && Passes(m, path, q, d) && !Untraced(m, ts, path)
    ensures Traced(m, ts, q, d)
  {
    hide Passes, IsBorder;
    var i, a :| 0 <= i < |ts| && a in ContourOf(m, ts[i].p, ts[i].isHole) && a in path;
    SharedPasses(m, ContourOf(m, ts[i].p, ts[i].isHole), path, a, q, d);
    assert PassedBy(m, ts[i], q, d);
  }

  lemma SharedPasses(m: Mask, p: seq<State>, r: seq<State>, a: State, q: Pt, d: Dir)
    requires IsBorder(m, p) && IsBorder(m, r) && a in p && a in r && Passes(m, r, q, d)
    ensures Passes(m, p, q, d)
  {
    BordersDisjointOrEqual(m, p, r, a);
    var i :| 0 <= i < |r| && PassesAt(m, r[i], q, d);
    assert r[i] in r;
    var j :| 0 <= j < |p| && p[j] == r[i];
  }

  /** The contours trace the borders of an image: each gap lies on exactly one of them. */
  ghost predicate TracesAll(m: Mask, ts: seq<Start>)
    requires Starts(m, ts)
  {
    forall q, d: Dir :: IsGap(m, q, d) ==> TracedOnce(m, ts, q, d)
  }

  ghost predicate TracedOnce(m: Mask, ts: seq<Start>, q: Pt, d: Dir)
    requires Starts(m, ts)
  {
    && Traced(m, ts, q, d)
    && forall i, j :: 0 <= i < j < |ts| && PassedBy(m, ts[i], q, d) ==> !PassedBy(m, ts[j], q, d)
  }

  /** So, once the scan is over, every gap of the image lies on exactly one contour. */
  lemma GapOnExactlyOneContour(m: Mask, ts: seq<Start>, width: int, height: int)
    requires Starts(m, ts) && AllApart(m, ts) && Framed(m, width, height) && Covered(m, ts, width, 1, height)
    ensures TracesAll(m, ts)
  {
    hide AllApart, Covered, Traced, PassedBy, IsGap;
    forall q, d: Dir | IsGap(m, q, d)
      ensures TracedOnce(m, ts, q, d)
    {
      EveryGapTraced(m, ts, width, height, q, d);
      forall i, j | 0 <= i < j < |ts| && PassedBy(m, ts[i], q, d)
        ensures !PassedBy(m, ts[j], q, d)
      {
        PassedByOne(m, ts, i, j, q, d);
      }
    }
  }
}
