/** Borders that face the outside of an image.

    The outside is what can be reached from the frame through zero pixels, going from side to
    side.  All sides that a border passes face the same region of zero pixels; and how often a
    border winds around a pixel depends on the region of the pixel only.  So a border that
    faces the outside is known by any pixel it goes through. */
module OuterBorders {
  import opened PixelGrid
  import opened BorderFollowing
  import opened BorderGaps

  // ----- The outside -----

  predicate Beside(p: Pt, q: Pt) {
    (p.y == q.y && (p.x == q.x + 1 || q.x == p.x + 1)) || (p.x == q.x && (p.y == q.y + 1 || q.y == p.y + 1))
  }

  /** A way through zero pixels. */
  ghost predicate IsWay(m: Mask, way: seq<Pt>) {
    && |way| > 0
    && (forall i :: 0 <= i < |way| ==> way[i] !in m)
    && (forall i :: 0 <= i < |way| - 1 ==> Beside(way[i], way[i + 1]))
  }

  predicate OffInside(q: Pt, width: int, height: int) {
    q.x <= 0 || q.y <= 0 || width <= q.x || height <= q.y
  }

  ghost predicate LeadsOut(m: Mask, width: int, height: int, way: seq<Pt>, z: Pt) {
    IsWay(m, way) && way[0] == z && OffInside(way[|way| - 1], width, height)
  }

  /** Zero pixel z is joined to the frame through zero pixels. */
  ghost predicate Outside(m: Mask, width: int, height: int, z: Pt) {
    exists way :: LeadsOut(m, width, height, way, z)
  }

  lemma OutsideIsZero(m: Mask, width: int, height: int, z: Pt)
    requires Outside(m, width, height, z)
    ensures z !in m
  {
    var way :| LeadsOut(m, width, height, way, z);
    assert way[0] == z;
  }

  lemma OnFrameOutside(m: Mask, width: int, height: int, z: Pt)
    requires z !in m && OffInside(z, width, height)
    ensures Outside(m, width, height, z)
  {
    assert LeadsOut(m, width, height, [z], z);
  }

  lemma OutsideBeside(m: Mask, width: int, height: int, p: Pt, q: Pt)
    requires Outside(m, width, height, p) && q !in m && Beside(p, q)
    ensures Outside(m, width, height, q)
  {
    var way :| LeadsOut(m, width, height, way, p);
    var longer := [q] + way;
    assert longer[0] == q && forall i :: 0 < i < |longer| ==> longer[i] == way[i - 1];
    forall i | 0 <= i < |longer| - 1
      ensures Beside(longer[i], longer[i + 1])
    {
      assert i > 0 ==> Beside(way[i - 1], way[i]);
    }
    assert LeadsOut(m, width, height, longer, q);
  }

  /** Along a row of zero pixels. */
  lemma {:induction false} OutsideAlong(m: Mask, width: int, height: int, y: int, a: int, b: int)
    requires Outside(m, width, height, Pt(a, y))
    requires forall x :: (a <= x <= b || b <= x <= a) ==> Pt(x, y) !in m
    ensures Outside(m, width, height, Pt(b, y))
    decreases if a < b then b - a else a - b
  {
    if a != b {
      var c := if a < b then a + 1 else a - 1;
      OutsideBeside(m, width, height, Pt(a, y), Pt(c, y));
      OutsideAlong(m, width, height, y, c, b);
    }
  }

  lemma RingBeside(p: Pt, d: Dir)
    ensures Beside(Nb(p, d), Nb(p, Rot(d, 1))) && Beside(Nb(p, Rot(d, 1)), Nb(p, d))
  {
  }

  // ----- One border faces one region -----

  lemma ArcOn(s: Dir, d: Dir)
    requires Arc(s, d) < 8
    ensures Arc(s, Rot(d, 1)) == Arc(s, d) + 1
  {
  }

  lemma ArcBack(s: Dir, d: Dir)
    requires Arc(s, d) > 1
    ensures Arc(s, Back(d, 1)) == Arc(s, d) - 1 && Rot(Back(d, 1), 1) == d
  {
  }

  /** What one state turns past is joined. */
  lemma {:induction false} SweptJoined(m: Mask, width: int, height: int, a: State, d: Dir, e: Dir)
    requires IsState(m, a) && Sweeps(m, a, d) && Sweeps(m, a, e) && Outside(m, width, height, Nb(a.p, d))
    ensures Outside(m, width, height, Nb(a.p, e))
    decreases if Arc(a.s, d) < Arc(a.s, e) then Arc(a.s, e) - Arc(a.s, d) else Arc(a.s, d) - Arc(a.s, e)
  {
    hide Outside;
    var k := Arc(a.s, d);
    if k == Arc(a.s, e) {
      assert d == Rot(a.s, k) == e;
    } else {
      var c: Dir;
      if k < Arc(a.s, e) {
        c := Rot(d, 1);
        ArcOn(a.s, d);
        RingBeside(a.p, d);
      } else {
        c := Back(d, 1);
        ArcBack(a.s, d);
        RingBeside(a.p, c);
      }
      assert Nb(a.p, Rot(a.s, Arc(a.s, c))) !in m;
      OutsideBeside(m, width, height, Nb(a.p, d), Nb(a.p, c));
      SweptJoined(m, width, height, a, c, e);
    }
  }

  predicate Main(d: Dir) { d % 2 == 0 }

  /** The state turns past one of the four main sides, and all it turns past is outside. */
  ghost predicate FacesOutside(m: Mask, width: int, height: int, a: State) {
    && IsState(m, a)
    && (exists d: Dir :: Main(d) && Sweeps(m, a, d))
    && (forall d: Dir :: Sweeps(m, a, d) ==> Outside(m, width, height, Nb(a.p, d)))
  }

  lemma FacesIf(m: Mask, width: int, height: int, a: State, d: Dir)
    requires IsState(m, a) && Main(d) && Sweeps(m, a, d) && Outside(m, width, height, Nb(a.p, d))
    ensures FacesOutside(m, width, height, a)
  {
    hide Outside;
    forall e: Dir | Sweeps(m, a, e)
      ensures Outside(m, width, height, Nb(a.p, e))
    {
      SweptJoined(m, width, height, a, d, e);
    }
  }

  /** Where a border turns a corner the zero pixel next to it is the same before and after. */
  lemma CornerShared(p: Pt, f: Dir)
    ensures !Main(f) ==> Nb(Nb(p, f), Rot(Opp(f), 1)) == Nb(p, Back(f, 1)) && Main(Rot(Opp(f), 1))
    ensures Main(f) ==> Nb(Nb(p, f), Rot(Opp(f), 1)) == Nb(p, Back(f, 2)) && !Main(Rot(Opp(f), 1))
    ensures Main(f) ==> Nb(Nb(p, f), Rot(Opp(f), 2)) == Nb(p, Back(f, 1)) && Main(Rot(Opp(f), 2))
    ensures Rot(Rot(Opp(f), 1), 1) == Rot(Opp(f), 2)
  {
  }

  lemma TurnedBack(s: Dir, t: int, f: Dir, j: int)
    requires 1 <= j < t <= 8 && f == Rot(s, t)
    ensures Back(f, j) == Rot(s, t - j) && Arc(s, Back(f, j)) == t - j
  {
  }

  /** The directions just in front of the way out. */
  lemma BeforeCode(m: Mask, a: State, d: Dir)
    requires IsState(m, a) && Sweeps(m, a, d) && Main(d)
    ensures var f := Code(m, a);
      Sweeps(m, a, Back(f, 1)) && (Main(f) ==> Sweeps(m, a, Back(f, 2)))
  {
    var t, f := Turn(m, a.p, a.s, 1), Code(m, a);
    hide Turn;
    TurnedBack(a.s, t, f, 1);
    if Main(f) {
      assert d != Back(f, 1);
      assert Arc(a.s, d) != t - 1;
      TurnedBack(a.s, t, f, 2);
    }
  }

  lemma SweptIsZero(m: Mask, a: State, d: Dir)
    requires IsState(m, a) && Sweeps(m, a, d)
    ensures Nb(a.p, d) !in m
  {
    assert Rot(a.s, Arc(a.s, d)) == d;
  }

  /** Facing the outside goes on from state to state. */
  lemma FacesNext(m: Mask, width: int, height: int, a: State)
    requires FacesOutside(m, width, height, a)
    ensures FacesOutside(m, width, height, Next(m, a))
  {
    hide Outside;
    var f, b := Code(m, a), Next(m, a);
    var d: Dir :| Main(d) && Sweeps(m, a, d);
    BeforeCode(m, a, d);
    CornerShared(a.p, f);
    SweptIsZero(m, a, Back(f, 1));
    hide Sweeps, Code, Next, Arc;
    assert b.p == Nb(a.p, f) && b.s == Opp(f) by {
      NextIs(m, a);
    }
    var e := Rot(b.s, 1);
    if Main(f) {
      SweptIsZero(m, a, Back(f, 2));
      FirstPassed(m, b);
      SweepOn(m, b, b.p, e);
      FacesIf(m, width, height, b, Rot(e, 1));
    } else {
      FirstPassed(m, b);
      FacesIf(m, width, height, b, e);
    }
  }

  lemma NextIs(m: Mask, a: State)
    requires IsState(m, a)
    ensures var f, b := Code(m, a), Next(m, a);
      b.p == Nb(a.p, f) && b.s == Opp(f)
  {
  }

  lemma BorderStep(m: Mask, path: seq<State>, i: nat)
    requires IsBorder(m, path) && 0 < i < |path|
    ensures IsState(m, path[i - 1]) && path[i] == Next(m, path[i - 1])
  {
    hide Next;
    assert Follows(m, path, i - 1);
  }

  lemma {:induction false} BorderFaces(m: Mask, width: int, height: int, path: seq<State>, i: nat)
    requires IsBorder(m, path) && FacesOutside(m, width, height, path[0]) && i < |path|
    ensures FacesOutside(m, width, height, path[i])
  {
    hide FacesOutside, Next, IsState, IsBorder;
    if i > 0 {
      BorderStep(m, path, i);
      BorderFaces(m, width, height, path, i - 1);
      FacesNext(m, width, height, path[i - 1]);
    }
  }

  /** Every side that such a border passes faces the outside. */
  lemma PassedOutside(m: Mask, width: int, height: int, path: seq<State>, q: Pt, d: Dir)
    requires IsBorder(m, path) && FacesOutside(m, width, height, path[0]) && Passes(m, path, q, d)
    ensures Outside(m, width, height, Nb(q, d))
  {
    hide Outside;
    var i :| 0 <= i < |path| && PassesAt(m, path[i], q, d);
    BorderFaces(m, width, height, path, i);
  }

  /** And it passes a main side of every pixel it goes through. */
  lemma VisitedPassed(m: Mask, width: int, height: int, path: seq<State>, q: Pt) returns (d: Dir)
    requires IsBorder(m, path) && FacesOutside(m, width, height, path[0]) && Visits(path, q)
    ensures Main(d) && Passes(m, path, q, d) && Outside(m, width, height, Nb(q, d))
  {
    hide Outside;
    var i :| 0 <= i < |path| && path[i].p == q;
    BorderFaces(m, width, height, path, i);
    d :| Main(d) && Sweeps(m, path[i], d);
    assert PassesAt(m, path[i], q, d);
  }

  // ----- How often a border winds around a pixel -----

  ghost function Side(m: Mask, path: seq<State>, q: Pt, d: Dir): (k: int)
    ensures k == 0 || k == 1
    ensures k == 1 <==> Passes(m, path, q, d)
  {
    if Passes(m, path, q, d) then 1 else 0
  }

  /** Coming along the row from the west: each west side the border passes counts one more, each
      east side one less. */
  ghost function Wind(m: Mask, path: seq<State>, x: int, y: int): int
    decreases x
  {
    if x <= 0 then 0
    else Wind(m, path, x - 1, y) - Side(m, path, Pt(x - 1, y), 0) + Side(m, path, Pt(x, y), 4)
  }

  lemma NoSide(m: Mask, path: seq<State>, q: Pt, d: Dir)
    requires q !in m || Nb(q, d) in m
    ensures Side(m, path, q, d) == 0
  {
    hide Passes;
    if Passes(m, path, q, d) {
      Unoccupied(m, path, q, d);
    }
  }

  /** Around a corner of four pixels a border comes in as often as it goes out. */
  lemma AroundCorner(m: Mask, path: seq<State>, a: Pt, b: Pt, c: Pt, d: Pt)
    requires IsBorder(m, path)
    requires b == Pt(a.x + 1, a.y) && c == Pt(a.x, a.y + 1) && d == Pt(a.x + 1, a.y + 1)
    ensures -Side(m, path, a, 6) + Side(m, path, c, 2) - Side(m, path, c, 0) + Side(m, path, d, 4)
         == -Side(m, path, a, 0) + Side(m, path, b, 4) - Side(m, path, b, 6) + Side(m, path, d, 2)
  {
    hide IsBorder, Passes, Side;
    NoneOf(m, path, a, b, c, d);
    if a in m && d in m {
      Diagonal(m, path, a, d);
    }
    if b in m && c in m {
      CounterDiagonal(m, path, b, c);
    }
    if a in m && d !in m {
      if b !in m && c !in m { OnlyA(m, path, a); }
      if b in m && c !in m { TopPair(m, path, a, b); }
      if c in m && b !in m { LeftPair(m, path, a, c); }
    }
    if a !in m && d in m {
      if b !in m && c !in m { OnlyD(m, path, d); }
      if c in m && b !in m { BottomPair(m, path, c, d); }
      if b in m && c !in m { RightPair(m, path, b, d); }
    }
    if a !in m && d !in m {
      if b in m && c !in m { OnlyB(m, path, b); }
      if c in m && b !in m { OnlyC(m, path, c); }
    }
  }

  lemma NoneOf(m: Mask, path: seq<State>, a: Pt, b: Pt, c: Pt, d: Pt)
    requires b == Pt(a.x + 1, a.y) && c == Pt(a.x, a.y + 1) && d == Pt(a.x + 1, a.y + 1)
    ensures a !in m || c in m ==> Side(m, path, a, 6) == 0
    ensures c !in m || a in m ==> Side(m, path, c, 2) == 0
    ensures c !in m || d in m ==> Side(m, path, c, 0) == 0
    ensures d !in m || c in m ==> Side(m, path, d, 4) == 0
    ensures a !in m || b in m ==> Side(m, path, a, 0) == 0
    ensures b !in m || a in m ==> Side(m, path, b, 4) == 0
    ensures b !in m || d in m ==> Side(m, path, b, 6) == 0
    ensures d !in m || b in m ==> Side(m, path, d, 2) == 0
  {
    assert Nb(a, 6) == c && Nb(c, 2) == a && Nb(c, 0) == d && Nb(d, 4) == c;
    assert Nb(a, 0) == b && Nb(b, 4) == a && Nb(b, 6) == d && Nb(d, 2) == b;
    hide Side, Nb;
    if a !in m || c in m { NoSide(m, path, a, 6); }
    if c !in m || a in m { NoSide(m, path, c, 2); }
    if c !in m || d in m { NoSide(m, path, c, 0); }
    if d !in m || c in m { NoSide(m, path, d, 4); }
    if a !in m || b in m { NoSide(m, path, a, 0); }
    if b !in m || a in m { NoSide(m, path, b, 4); }
    if b !in m || d in m { NoSide(m, path, b, 6); }
    if d !in m || b in m { NoSide(m, path, d, 2); }
  }

  lemma Diagonal(m: Mask, path: seq<State>, a: Pt, d: Pt)
    requires IsBorder(m, path) && d == Pt(a.x + 1, a.y + 1) && a in m && d in m
    ensures Side(m, path, a, 0) == Side(m, path, d, 2) && Side(m, path, a, 6) == Side(m, path, d, 4)
  {
    hide IsBorder, Passes;
    if Passes(m, path, d, 2) { NorthGoesUp(m, path, d); }
    if Passes(m, path, a, 0) { EastCameOver(m, path, a); }
    if Passes(m, path, a, 6) { SouthGoesDown(m, path, a); }
    if Passes(m, path, d, 4) { WestCameOver(m, path, d); }
  }

  lemma CounterDiagonal(m: Mask, path: seq<State>, b: Pt, c: Pt)
    requires IsBorder(m, path) && c == Pt(b.x - 1, b.y + 1) && b in m && c in m
    ensures Side(m, path, b, 4) == Side(m, path, c, 2) && Side(m, path, b, 6) == Side(m, path, c, 0)
  {
    hide IsBorder, Passes;
    if Passes(m, path, b, 4) { WestTurnsOut(m, path, b); }
    if Passes(m, path, c, 2) { NorthCameDown(m, path, c); }
    if Passes(m, path, c, 0) { EastTurnsOver(m, path, c); }
    if Passes(m, path, b, 6) { SouthCameUp(m, path, b); }
  }

  lemma OnlyA(m: Mask, path: seq<State>, a: Pt)
    requires IsBorder(m, path) && Pt(a.x + 1, a.y) !in m && Pt(a.x, a.y + 1) !in m && Pt(a.x + 1, a.y + 1) !in m
    ensures Side(m, path, a, 0) == Side(m, path, a, 6)
  {
    hide IsBorder, Passes;
    if Passes(m, path, a, 6) { SouthEnds(m, path, a); }
    if Passes(m, path, a, 0) { EastBegins(m, path, a); }
  }

  lemma OnlyB(m: Mask, path: seq<State>, b: Pt)
    requires IsBorder(m, path) && Pt(b.x - 1, b.y) !in m && Pt(b.x, b.y + 1) !in m && Pt(b.x - 1, b.y + 1) !in m
    ensures Side(m, path, b, 4) == Side(m, path, b, 6)
  {
    hide IsBorder, Passes;
    if Passes(m, path, b, 4) { WestEnds(m, path, b); }
    if Passes(m, path, b, 6) { SouthBegins(m, path, b); }
  }

  lemma OnlyC(m: Mask, path: seq<State>, c: Pt)
    requires IsBorder(m, path) && Pt(c.x + 1, c.y) !in m && Pt(c.x, c.y - 1) !in m && Pt(c.x + 1, c.y - 1) !in m
    ensures Side(m, path, c, 0) == Side(m, path, c, 2)
  {
    hide IsBorder, Passes;
    if Passes(m, path, c, 0) { EastEnds(m, path, c); }
    if Passes(m, path, c, 2) { NorthBegins(m, path, c); }
  }

  lemma OnlyD(m: Mask, path: seq<State>, d: Pt)
    requires IsBorder(m, path) && Pt(d.x - 1, d.y) !in m && Pt(d.x, d.y - 1) !in m && Pt(d.x - 1, d.y - 1) !in m
    ensures Side(m, path, d, 2) == Side(m, path, d, 4)
  {
    hide IsBorder, Passes;
    if Passes(m, path, d, 2) { NorthEnds(m, path, d); }
    if Passes(m, path, d, 4) { WestBegins(m, path, d); }
  }

  lemma TopPair(m: Mask, path: seq<State>, a: Pt, b: Pt)
    requires IsBorder(m, path) && b == Pt(a.x + 1, a.y) && a in m && b in m
    requires Pt(a.x, a.y + 1) !in m && Pt(a.x + 1, a.y + 1) !in m
    ensures Side(m, path, a, 6) == Side(m, path, b, 6)
  {
    hide IsBorder, Passes;
    if Passes(m, path, a, 6) { SouthGoesOn(m, path, a); }
    if Passes(m, path, b, 6) { SouthCameOn(m, path, b); }
  }

  lemma BottomPair(m: Mask, path: seq<State>, c: Pt, d: Pt)
    requires IsBorder(m, path) && d == Pt(c.x + 1, c.y) && c in m && d in m
    requires Pt(c.x, c.y - 1) !in m && Pt(c.x + 1, c.y - 1) !in m
    ensures Side(m, path, c, 2) == Side(m, path, d, 2)
  {
    hide IsBorder, Passes;
    if Passes(m, path, d, 2) { NorthGoesOn(m, path, d); }
    if Passes(m, path, c, 2) { NorthCameOn(m, path, c); }
  }

  lemma LeftPair(m: Mask, path: seq<State>, a: Pt, c: Pt)
    requires IsBorder(m, path) && c == Pt(a.x, a.y + 1) && a in m && c in m
    requires Pt(a.x + 1, a.y) !in m && Pt(a.x + 1, a.y + 1) !in m
    ensures Side(m, path, a, 0) == Side(m, path, c, 0)
  {
    hide IsBorder, Passes;
    if Passes(m, path, c, 0) { EastGoesOn(m, path, c); }
    if Passes(m, path, a, 0) { EastCameUp(m, path, a); }
  }

  lemma RightPair(m: Mask, path: seq<State>, b: Pt, d: Pt)
    requires IsBorder(m, path) && d == Pt(b.x, b.y + 1) && b in m && d in m
    requires Pt(b.x - 1, b.y) !in m && Pt(b.x - 1, b.y + 1) !in m
    ensures Side(m, path, b, 4) == Side(m, path, d, 4)
  {
    hide IsBorder, Passes;
    if Passes(m, path, b, 4) { WestGoesOn(m, path, b); }
    if Passes(m, path, d, 4) { WestCameDown(m, path, d); }
  }

  /** From row to row the count changes as it does along a row: it does not depend on the way
      one comes. */
  lemma {:induction false} WindDown(m: Mask, path: seq<State>, width: int, height: int, x: int, y: int)
    requires IsBorder(m, path) && Framed(m, width, height)
    ensures Wind(m, path, x, y + 1) == Wind(m, path, x, y) - Side(m, path, Pt(x, y), 6) + Side(m, path, Pt(x, y + 1), 2)
    decreases x
  {
    hide IsBorder, Side;
    if x <= 0 {
      NoSide(m, path, Pt(x, y), 6);
      NoSide(m, path, Pt(x, y + 1), 2);
    } else {
      WindDown(m, path, width, height, x - 1, y);
      AroundCorner(m, path, Pt(x - 1, y), Pt(x, y), Pt(x - 1, y + 1), Pt(x, y + 1));
    }
  }

  lemma WindStep(m: Mask, path: seq<State>, x: int, y: int)
    requires x >= 1
    ensures Wind(m, path, x, y) ==
            Wind(m, path, x - 1, y) - Side(m, path, Pt(x - 1, y), 0) + Side(m, path, Pt(x, y), 4)
  {
  }

  lemma WindEast(m: Mask, path: seq<State>, a: Pt, b: Pt)
    requires a.x >= 0 && b == Pt(a.x + 1, a.y)
    ensures Wind(m, path, b.x, b.y) == Wind(m, path, a.x, a.y) - Side(m, path, a, 0) + Side(m, path, b, 4)
  {
    hide Wind, Side;
    WindStep(m, path, b.x, b.y);
    assert Pt(b.x - 1, b.y) == a && Pt(b.x, b.y) == b;
  }

  lemma WindSouth(m: Mask, path: seq<State>, width: int, height: int, a: Pt, b: Pt)
    requires IsBorder(m, path) && Framed(m, width, height) && b == Pt(a.x, a.y + 1)
    ensures Wind(m, path, b.x, b.y) == Wind(m, path, a.x, a.y) - Side(m, path, a, 6) + Side(m, path, b, 2)
  {
    hide IsBorder, Wind, Side;
    WindDown(m, path, width, height, a.x, a.y);
    assert Pt(a.x, a.y) == a && Pt(a.x, a.y + 1) == b;
  }

  /** Across a side of a nonzero pixel the count changes by one exactly if the border passes it. */
  lemma WindAcross(m: Mask, path: seq<State>, width: int, height: int, q: Pt, d: Dir)
    requires IsBorder(m, path) && Framed(m, width, height) && q in m && Main(d) && Nb(q, d) !in m
    ensures var z := Nb(q, d);
      Wind(m, path, q.x, q.y) == Wind(m, path, z.x, z.y) + Side(m, path, q, d)
  {
    hide IsBorder, Side, Wind;
    var z := Nb(q, d);
    assert q.x >= 1;
    if d == 0 {
      WindEast(m, path, q, z);
      NoSide(m, path, z, 4);
    } else if d == 4 {
      WindEast(m, path, z, q);
      NoSide(m, path, z, 0);
    } else if d == 6 {
      WindSouth(m, path, width, height, q, z);
      NoSide(m, path, z, 2);
    } else {
      WindSouth(m, path, width, height, z, q);
      NoSide(m, path, z, 6);
    }
  }

  lemma WindBeside(m: Mask, path: seq<State>, width: int, height: int, p: Pt, q: Pt)
    requires IsBorder(m, path) && Framed(m, width, height) && Beside(p, q) && p !in m && q !in m
    ensures Wind(m, path, p.x, p.y) == Wind(m, path, q.x, q.y)
  {
    hide IsBorder, Side, Wind;
    var a, b := if p.x < q.x || p.y < q.y then p else q, if p.x < q.x || p.y < q.y then q else p;
    if a.y == b.y {
      if a.x < 0 {
        WindLeft(m, path, a.x, a.y);
        WindLeft(m, path, b.x, b.y);
      } else {
        WindEast(m, path, a, b);
        NoSide(m, path, a, 0);
        NoSide(m, path, b, 4);
      }
    } else {
      WindSouth(m, path, width, height, a, b);
      NoSide(m, path, a, 6);
      NoSide(m, path, b, 2);
    }
  }

  lemma WindLeft(m: Mask, path: seq<State>, x: int, y: int)
    requires x <= 0
    ensures Wind(m, path, x, y) == 0
  {
  }

  lemma {:induction false} WindOffRow(m: Mask, path: seq<State>, width: int, height: int, x: int, y: int)
    requires Framed(m, width, height) && (y <= 0 || height <= y)
    ensures Wind(m, path, x, y) == 0
    decreases x
  {
    hide Side;
    if x > 0 {
      WindOffRow(m, path, width, height, x - 1, y);
      NoSide(m, path, Pt(x - 1, y), 0);
      NoSide(m, path, Pt(x, y), 4);
    }
  }

  lemma {:induction false} WindOffColumn(m: Mask, path: seq<State>, width: int, height: int, x: int, y: int)
    requires IsBorder(m, path) && Framed(m, width, height) && width <= x
    ensures Wind(m, path, x, y) == 0
    decreases y
  {
    if y <= 0 {
      WindOffRow(m, path, width, height, x, y);
    } else {
      WindOffColumn(m, path, width, height, x, y - 1);
      WindBeside(m, path, width, height, Pt(x, y), Pt(x, y - 1));
    }
  }

  lemma {:induction false} WindOfWay(m: Mask, path: seq<State>, width: int, height: int, way: seq<Pt>, i: nat)
    requires IsBorder(m, path) && Framed(m, width, height) && IsWay(m, way) && i < |way|
    requires OffInside(way[|way| - 1], width, height)
    ensures Wind(m, path, way[i].x, way[i].y) == 0
    decreases |way| - i
  {
    hide IsBorder, Wind;
    if i == |way| - 1 {
      var q := way[i];
      if q.y <= 0 || height <= q.y {
        WindOffRow(m, path, width, height, q.x, q.y);
      } else if width <= q.x {
        WindOffColumn(m, path, width, height, q.x, q.y);
      } else {
        WindLeft(m, path, q.x, q.y);
      }
    } else {
      WindOfWay(m, path, width, height, way, i + 1);
      assert Beside(way[i], way[i + 1]);
      WindBeside(m, path, width, height, way[i], way[i + 1]);
    }
  }

  /** No border winds around the outside. */
  lemma WindOutside(m: Mask, path: seq<State>, width: int, height: int, z: Pt)
    requires IsBorder(m, path) && Framed(m, width, height) && Outside(m, width, height, z)
    ensures Wind(m, path, z.x, z.y) == 0
  {
    var way :| LeadsOut(m, width, height, way, z);
    WindOfWay(m, path, width, height, way, 0);
  }

  /** A border that passes one side that faces the outside passes every such side of the pixel. */
  lemma SameFace(m: Mask, path: seq<State>, width: int, height: int, q: Pt, d: Dir, e: Dir)
    requires IsBorder(m, path) && Framed(m, width, height) && Main(d) && Main(e)
    requires Passes(m, path, q, d) && Outside(m, width, height, Nb(q, d)) && Outside(m, width, height, Nb(q, e))
    ensures Passes(m, path, q, e)
  {
    hide IsBorder, Passes, Outside, Wind;
    Unoccupied(m, path, q, d);
    OutsideIsZero(m, width, height, Nb(q, e));
    WindAcross(m, path, width, height, q, d);
    WindAcross(m, path, width, height, q, e);
    WindOutside(m, path, width, height, Nb(q, d));
    WindOutside(m, path, width, height, Nb(q, e));
  }

  /** Where a border winds around a pixel it passes a west side in front of it. */
  lemma {:induction false} WestInFront(m: Mask, path: seq<State>, x: int, y: int) returns (l: Pt)
    requires Wind(m, path, x, y) >= 1
    ensures Passes(m, path, l, 4) && l.y == y && l.x <= x
    decreases x
  {
    hide Passes;
    if Passes(m, path, Pt(x, y), 4) {
      l := Pt(x, y);
    } else {
      l := WestInFront(m, path, x - 1, y);
    }
  }

  // ----- One component, one border that faces the outside -----

  predicate Touching(p: Pt, q: Pt) {
    -1 <= p.x - q.x <= 1 && -1 <= p.y - q.y <= 1
  }

  ghost predicate IsChain(m: Mask, c: seq<Pt>) {
    && |c| > 0
    && (forall i :: 0 <= i < |c| ==> c[i] in m)
    && (forall i :: 0 <= i < |c| - 1 ==> Touching(c[i], c[i + 1]))
  }

  ghost predicate ChainJoins(m: Mask, c: seq<Pt>, p: Pt, q: Pt) {
    IsChain(m, c) && c[0] == p && c[|c| - 1] == q
  }

  /** Pixels of one component. */
  ghost predicate SameComponent(m: Mask, p: Pt, q: Pt) {
    exists c :: ChainJoins(m, c, p, q)
  }

  /** A border winds equally often around touching nonzero pixels. */
  lemma WindTouching(m: Mask, path: seq<State>, width: int, height: int, p: Pt, q: Pt)
    requires IsBorder(m, path) && Framed(m, width, height) && Touching(p, q) && p in m && q in m
    ensures Wind(m, path, p.x, p.y) == Wind(m, path, q.x, q.y)
  {
    hide IsBorder, Side, Wind;
    assert p == Pt(p.x, p.y) && q == Pt(q.x, q.y);
    if p.y == q.y {
      if p.x < q.x { WindRow(m, path, p, q); }
      if q.x < p.x { WindRow(m, path, q, p); }
    } else {
      var a, b := if p.y < q.y then p else q, if p.y < q.y then q else p;
      WindTwoRows(m, path, width, height, a, b);
    }
  }

  lemma WindRow(m: Mask, path: seq<State>, p: Pt, q: Pt)
    requires p in m && q in m && q == Pt(p.x + 1, p.y) && p.x >= 0
    ensures Wind(m, path, p.x, p.y) == Wind(m, path, q.x, q.y)
  {
    hide Side;
    assert Nb(p, 0) == q && Nb(q, 4) == p && p == Pt(p.x, p.y);
    NoSide(m, path, p, 0);
    NoSide(m, path, q, 4);
  }

  /** The lower pixel is below the upper one or diagonal to it. */
  lemma WindTwoRows(m: Mask, path: seq<State>, width: int, height: int, a: Pt, b: Pt)
    requires IsBorder(m, path) && Framed(m, width, height) && a in m && b in m && Touching(a, b) && b.y == a.y + 1
    ensures Wind(m, path, a.x, a.y) == Wind(m, path, b.x, b.y)
  {
    hide IsBorder, Side, Wind;
    var e := Pt(b.x, a.y);
    if a.x == b.x {
      WindSouth(m, path, width, height, a, b);
      assert Nb(a, 6) == b && Nb(b, 2) == a;
      NoSide(m, path, a, 6);
      NoSide(m, path, b, 2);
    } else if b.x == a.x + 1 {
      WindEast(m, path, a, e);
      WindSouth(m, path, width, height, e, b);
      Diagonal(m, path, a, b);
      NoneOf(m, path, a, e, Pt(a.x, b.y), b);
    } else {
      WindEast(m, path, e, a);
      WindSouth(m, path, width, height, e, b);
      CounterDiagonal(m, path, a, b);
      NoneOf(m, path, e, a, b, Pt(a.x, b.y));
    }
  }

  lemma {:induction false} WindOfChain(m: Mask, path: seq<State>, width: int, height: int, c: seq<Pt>, i: nat)
    requires IsBorder(m, path) && Framed(m, width, height) && IsChain(m, c) && i < |c|
    ensures Wind(m, path, c[i].x, c[i].y) == Wind(m, path, c[0].x, c[0].y)
  {
    hide IsBorder, Wind;
    if i > 0 {
      WindOfChain(m, path, width, height, c, i - 1);
      assert Touching(c[i - 1], c[i]);
      WindTouching(m, path, width, height, c[i - 1], c[i]);
    }
  }

  /** A border that passes a side of one pixel that faces the outside passes every such side of
      every pixel of the component. */
  lemma OneOuterBorder(m: Mask, path: seq<State>, width: int, height: int, p: Pt, d: Dir, q: Pt, e: Dir)
    requires IsBorder(m, path) && Framed(m, width, height) && SameComponent(m, p, q) && Main(d) && Main(e)
    requires Passes(m, path, p, d) && Outside(m, width, height, Nb(p, d)) && Outside(m, width, height, Nb(q, e))
    ensures Passes(m, path, q, e)
  {
    hide IsBorder, Passes, Outside, Wind;
    var c :| ChainJoins(m, c, p, q);
    WindOfChain(m, path, width, height, c, |c| - 1);
    assert c[|c| - 1] in m;
    Unoccupied(m, path, p, d);
    OutsideIsZero(m, width, height, Nb(q, e));
    WindAcross(m, path, width, height, p, d);
    WindAcross(m, path, width, height, q, e);
    WindOutside(m, path, width, height, Nb(p, d));
    WindOutside(m, path, width, height, Nb(q, e));
  }
}
