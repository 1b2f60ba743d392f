/** The sides a border passes.

    A border passes a side of a pixel when one of its states turns past the zero neighbour
    there.  Passing goes on from neighbour to neighbour, which ties every north, south and west
    side a border passes to an east side it passes, unless the border is the outline of a part
    of the image that nothing lies above. */
module BorderGaps {
  import opened PixelGrid
  import opened BorderFollowing

  /** The path has a state at q that turns past direction d. */
  ghost predicate Passes(m: Mask, path: seq<State>, q: Pt, d: Dir) {
    exists i :: 0 <= i < |path| && PassesAt(m, path[i], q, d)
  }

  ghost predicate PassesAt(m: Mask, a: State, q: Pt, d: Dir) {
    IsState(m, a) && a.p == q && Sweeps(m, a, d)
  }

  lemma SweepOn(m: Mask, a: State, q: Pt, d: Dir)
    requires PassesAt(m, a, q, d) && Nb(q, Rot(d, 1)) !in m
    ensures PassesAt(m, a, q, Rot(d, 1))
  {
    var k := Arc(a.s, d);
    assert Rot(a.s, k) == d;
    assert k < 8 && Rot(a.s, k + 1) == Rot(d, 1);
  }

  lemma SweepBack(m: Mask, a: State, q: Pt, d: Dir)
    requires PassesAt(m, a, q, d) && Nb(q, Back(d, 1)) !in m
    ensures PassesAt(m, a, q, Back(d, 1))
  {
    assert Back(d, 1) != a.s;
  }

  /** A zero neighbour next to a passed side is passed too. */
  lemma TurnOn(m: Mask, path: seq<State>, q: Pt, d: Dir)
    requires Passes(m, path, q, d) && Nb(q, Rot(d, 1)) !in m
    ensures Passes(m, path, q, Rot(d, 1))
  {
    var i :| 0 <= i < |path| && PassesAt(m, path[i], q, d);
    SweepOn(m, path[i], q, d);
  }

  lemma TurnBackOn(m: Mask, path: seq<State>, q: Pt, d: Dir)
    requires Passes(m, path, q, d) && Nb(q, Back(d, 1)) !in m
    ensures Passes(m, path, q, Back(d, 1))
  {
    var i :| 0 <= i < |path| && PassesAt(m, path[i], q, d);
    SweepBack(m, path[i], q, d);
  }

  /** The state that turns past d leaves for the first nonzero neighbour behind it. */
  lemma LeavesFor(m: Mask, a: State, q: Pt, d: Dir)
    requires PassesAt(m, a, q, d) && Nb(q, Rot(d, 1)) in m
    ensures Code(m, a) == Rot(d, 1)
  {
    var k := Arc(a.s, d);
    assert Rot(a.s, k) == d && Rot(a.s, k + 1) == Rot(d, 1);
  }

  /** The state that turns past d came from the last nonzero neighbour in front of it. */
  lemma CameFrom(m: Mask, a: State, q: Pt, d: Dir)
    requires PassesAt(m, a, q, d) && Nb(q, Back(d, 1)) in m
    ensures a.s == Back(d, 1)
  {
    var k, e := Arc(a.s, d), Back(d, 1);
    assert Rot(a.s, k) == d;
  }

  lemma FirstPassed(m: Mask, a: State)
    requires IsState(m, a) && Nb(a.p, Rot(a.s, 1)) !in m
    ensures PassesAt(m, a, a.p, Rot(a.s, 1))
  {
  }

  lemma LastPassed(m: Mask, a: State, f: Dir)
    requires IsState(m, a) && Code(m, a) == f && Nb(a.p, Back(f, 1)) !in m
    ensures PassesAt(m, a, a.p, Back(f, 1))
  {
    var t := Turn(m, a.p, a.s, 1);
    assert Rot(a.s, t) == f;
    assert Back(f, 1) == Rot(a.s, t - 1);
  }

  /** The border moves on to the neighbour behind side d, and there passes the side next to the
      way in. */
  lemma StepOn(m: Mask, path: seq<State>, q: Pt, d: Dir, n: Pt)
    requires IsBorder(m, path) && Passes(m, path, q, d) && n == Nb(q, Rot(d, 1)) && n in m
    requires Nb(n, Rot(Opp(Rot(d, 1)), 1)) !in m
    ensures Passes(m, path, n, Rot(Opp(Rot(d, 1)), 1))
  {
    var i :| 0 <= i < |path| && PassesAt(m, path[i], q, d);
    LeavesFor(m, path[i], q, d);
    var b := Next(m, path[i]);
    BorderClosed(m, path, path[i]);
    FirstPassed(m, b);
  }

  lemma Predecessor(m: Mask, path: seq<State>, b: State) returns (a: State)
    requires IsBorder(m, path) && b in path
    ensures a in path && IsState(m, a) && Next(m, a) == b
  {
    var i :| 0 <= i < |path| && path[i] == b;
    if i > 0 {
      assert Follows(m, path, i - 1);
      a := path[i - 1];
    } else {
      a := path[|path| - 1];
    }
  }

  /** It came from the neighbour in front of side d, and there passed the side next to the way
      out. */
  lemma StepBackOn(m: Mask, path: seq<State>, q: Pt, d: Dir, r: Pt)
    requires IsBorder(m, path) && Passes(m, path, q, d) && r == Nb(q, Back(d, 1)) && r in m
    requires Nb(r, Back(Opp(Back(d, 1)), 1)) !in m
    ensures Passes(m, path, r, Back(Opp(Back(d, 1)), 1))
  {
    var i :| 0 <= i < |path| && PassesAt(m, path[i], q, d);
    CameFrom(m, path[i], q, d);
    var a := Predecessor(m, path, path[i]);
    LeavesOpposite(m, a, path[i]);
    LastPassed(m, a, Opp(Back(d, 1)));
    var j :| 0 <= j < |path| && path[j] == a;
  }

  lemma LeavesOpposite(m: Mask, a: State, b: State)
    requires IsState(m, a) && Next(m, a) == b
    ensures Code(m, a) == Opp(b.s) && a.p == Nb(b.p, b.s)
  {
    NbOpp(a.p, Code(m, a));
  }

  /** Only one border passes a side. */
  lemma PassedOnce(m: Mask, p: seq<State>, q: seq<State>, x: Pt, d: Dir)
    requires Passes(m, p, x, d) && Passes(m, q, x, d)
    ensures exists a :: a in p && a in q
  {
    var i :| 0 <= i < |p| && PassesAt(m, p[i], x, d);
    var j :| 0 <= j < |q| && PassesAt(m, q[j], x, d);
    SweepDeterminesState(m, p[i], q[j], d);
    assert p[i] in p && p[i] in q;
  }

  /** Some border passes every side of a pixel that has a neighbour. */
  lemma BorderPast(m: Mask, q: Pt, d: Dir) returns (path: seq<State>)
    requires q in m && Nb(q, d) !in m && !IsIsolated(m, q)
    ensures IsBorder(m, path) && PassesAt(m, path[0], q, d) && Passes(m, path, q, d)
  {
    var s := FirstBack(m, q, d, 1);
    FirstBackSweeps(m, q, d, s);
    path := Border(m, State(q, s));
    assert PassesAt(m, path[0], q, d);
  }

  // ----- Along a border -----

  /** Nonzero pixels lie strictly inside a frame of this size. */
  ghost predicate Framed(m: Mask, width: int, height: int) {
    forall q :: q in m ==> 1 <= q.x < width && 1 <= q.y < height
  }

  /** The border passes no east side of a pixel in front of the last column. */
  ghost predicate NoEast(m: Mask, path: seq<State>, width: int) {
    forall q :: Passes(m, path, q, 0) ==> q.x + 1 >= width
  }

  /** A side that is passed is a side. */
  lemma Unoccupied(m: Mask, path: seq<State>, q: Pt, d: Dir)
    requires Passes(m, path, q, d)
    ensures q in m && Nb(q, d) !in m
  {
    var i :| 0 <= i < |path| && PassesAt(m, path[i], q, d);
    var k := Arc(path[i].s, d);
    assert Rot(path[i].s, k) == d;
  }

  // Past the north, west, south and east sides, with the background on the right hand.

  lemma NorthGoesUp(m: Mask, path: seq<State>, c: Pt)
    requires IsBorder(m, path) && Passes(m, path, c, 2) && Pt(c.x - 1, c.y - 1) in m
    ensures Passes(m, path, Pt(c.x - 1, c.y - 1), 0)
  {
    hide IsBorder, Passes;
    Unoccupied(m, path, c, 2);
    StepOn(m, path, c, 2, Pt(c.x - 1, c.y - 1));
  }

  lemma NorthGoesOn(m: Mask, path: seq<State>, c: Pt)
    requires IsBorder(m, path) && Passes(m, path, c, 2) && Pt(c.x - 1, c.y - 1) !in m && Pt(c.x - 1, c.y) in m
    ensures Passes(m, path, Pt(c.x - 1, c.y), 2)
  {
    hide IsBorder, Passes;
    Unoccupied(m, path, c, 2);
    TurnOn(m, path, c, 2);
    StepOn(m, path, c, 3, Pt(c.x - 1, c.y));
    TurnOn(m, path, Pt(c.x - 1, c.y), 1);
  }

  lemma NorthEnds(m: Mask, path: seq<State>, c: Pt)
    requires IsBorder(m, path) && Passes(m, path, c, 2) && Pt(c.x - 1, c.y - 1) !in m && Pt(c.x - 1, c.y) !in m
    ensures Passes(m, path, c, 4)
  {
    hide IsBorder, Passes;
    Unoccupied(m, path, c, 2);
    TurnOn(m, path, c, 2);
    TurnOn(m, path, c, 3);
  }

  lemma WestTurnsOut(m: Mask, path: seq<State>, c: Pt)
    requires IsBorder(m, path) && Passes(m, path, c, 4) && Pt(c.x - 1, c.y + 1) in m
    ensures Passes(m, path, Pt(c.x - 1, c.y + 1), 2)
  {
    hide IsBorder, Passes;
    Unoccupied(m, path, c, 4);
    StepOn(m, path, c, 4, Pt(c.x - 1, c.y + 1));
  }

  lemma WestGoesOn(m: Mask, path: seq<State>, c: Pt)
    requires IsBorder(m, path) && Passes(m, path, c, 4) && Pt(c.x - 1, c.y + 1) !in m && Pt(c.x, c.y + 1) in m
    ensures Passes(m, path, Pt(c.x, c.y + 1), 4)
  {
    hide IsBorder, Passes;
    Unoccupied(m, path, c, 4);
    TurnOn(m, path, c, 4);
    StepOn(m, path, c, 5, Pt(c.x, c.y + 1));
    TurnOn(m, path, Pt(c.x, c.y + 1), 3);
  }

  lemma WestEnds(m: Mask, path: seq<State>, c: Pt)
    requires IsBorder(m, path) && Passes(m, path, c, 4) && Pt(c.x - 1, c.y + 1) !in m && Pt(c.x, c.y + 1) !in m
    ensures Passes(m, path, c, 6)
  {
    hide IsBorder, Passes;
    Unoccupied(m, path, c, 4);
    TurnOn(m, path, c, 4);
    TurnOn(m, path, c, 5);
  }

  lemma SouthGoesDown(m: Mask, path: seq<State>, c: Pt)
    requires IsBorder(m, path) && Passes(m, path, c, 6) && Pt(c.x + 1, c.y + 1) in m
    ensures Passes(m, path, Pt(c.x + 1, c.y + 1), 4)
  {
    hide IsBorder, Passes;
    Unoccupied(m, path, c, 6);
    StepOn(m, path, c, 6, Pt(c.x + 1, c.y + 1));
  }

  lemma SouthGoesOn(m: Mask, path: seq<State>, c: Pt)
    requires IsBorder(m, path) && Passes(m, path, c, 6) && Pt(c.x + 1, c.y + 1) !in m && Pt(c.x + 1, c.y) in m
    ensures Passes(m, path, Pt(c.x + 1, c.y), 6)
  {
    hide IsBorder, Passes;
    Unoccupied(m, path, c, 6);
    TurnOn(m, path, c, 6);
    StepOn(m, path, c, 7, Pt(c.x + 1, c.y));
    TurnOn(m, path, Pt(c.x + 1, c.y), 5);
  }

  lemma SouthEnds(m: Mask, path: seq<State>, c: Pt)
    requires IsBorder(m, path) && Passes(m, path, c, 6) && Pt(c.x + 1, c.y + 1) !in m && Pt(c.x + 1, c.y) !in m
    ensures Passes(m, path, c, 0)
  {
    hide IsBorder, Passes;
    Unoccupied(m, path, c, 6);
    TurnOn(m, path, c, 6);
    TurnOn(m, path, c, 7);
  }

  lemma EastGoesOn(m: Mask, path: seq<State>, c: Pt)
    requires IsBorder(m, path) && Passes(m, path, c, 0) && Pt(c.x + 1, c.y - 1) !in m && Pt(c.x, c.y - 1) in m
    ensures Passes(m, path, Pt(c.x, c.y - 1), 0)
  {
    hide IsBorder, Passes;
    Unoccupied(m, path, c, 0);
    TurnOn(m, path, c, 0);
    StepOn(m, path, c, 1, Pt(c.x, c.y - 1));
    TurnOn(m, path, Pt(c.x, c.y - 1), 7);
  }

  lemma EastEnds(m: Mask, path: seq<State>, c: Pt)
    requires IsBorder(m, path) && Passes(m, path, c, 0) && Pt(c.x + 1, c.y - 1) !in m && Pt(c.x, c.y - 1) !in m
    ensures Passes(m, path, c, 2)
  {
    hide IsBorder, Passes;
    Unoccupied(m, path, c, 0);
    TurnOn(m, path, c, 0);
    TurnOn(m, path, c, 1);
  }

  lemma EastTurnsOver(m: Mask, path: seq<State>, c: Pt)
    requires IsBorder(m, path) && Passes(m, path, c, 0) && Pt(c.x + 1, c.y - 1) in m
    ensures Passes(m, path, Pt(c.x + 1, c.y - 1), 6)
  {
    hide IsBorder, Passes;
    Unoccupied(m, path, c, 0);
    StepOn(m, path, c, 0, Pt(c.x + 1, c.y - 1));
  }

  // The same sides, where the border came from.

  lemma EastCameOver(m: Mask, path: seq<State>, c: Pt)
    requires IsBorder(m, path) && Passes(m, path, c, 0) && Pt(c.x + 1, c.y + 1) in m
    ensures Passes(m, path, Pt(c.x + 1, c.y + 1), 2)
  {
    hide IsBorder, Passes;
    Unoccupied(m, path, c, 0);
    StepBackOn(m, path, c, 0, Pt(c.x + 1, c.y + 1));
  }

  lemma EastCameUp(m: Mask, path: seq<State>, c: Pt)
    requires IsBorder(m, path) && Passes(m, path, c, 0) && Pt(c.x + 1, c.y + 1) !in m && Pt(c.x, c.y + 1) in m
    ensures Passes(m, path, Pt(c.x, c.y + 1), 0)
  {
    hide IsBorder, Passes;
    Unoccupied(m, path, c, 0);
    TurnBackOn(m, path, c, 0);
    StepBackOn(m, path, c, 7, Pt(c.x, c.y + 1));
    TurnBackOn(m, path, Pt(c.x, c.y + 1), 1);
  }

  lemma EastBegins(m: Mask, path: seq<State>, c: Pt)
    requires IsBorder(m, path) && Passes(m, path, c, 0) && Pt(c.x + 1, c.y + 1) !in m && Pt(c.x, c.y + 1) !in m
    ensures Passes(m, path, c, 6)
  {
    hide IsBorder, Passes;
    Unoccupied(m, path, c, 0);
    TurnBackOn(m, path, c, 0);
    TurnBackOn(m, path, c, 7);
  }

  lemma WestCameOver(m: Mask, path: seq<State>, c: Pt)
    requires IsBorder(m, path) && Passes(m, path, c, 4) && Pt(c.x - 1, c.y - 1) in m
    ensures Passes(m, path, Pt(c.x - 1, c.y - 1), 6)
  {
    hide IsBorder, Passes;
    Unoccupied(m, path, c, 4);
    StepBackOn(m, path, c, 4, Pt(c.x - 1, c.y - 1));
  }

  lemma WestCameDown(m: Mask, path: seq<State>, c: Pt)
    requires IsBorder(m, path) && Passes(m, path, c, 4) && Pt(c.x - 1, c.y - 1) !in m && Pt(c.x, c.y - 1) in m
    ensures Passes(m, path, Pt(c.x, c.y - 1), 4)
  {
    hide IsBorder, Passes;
    Unoccupied(m, path, c, 4);
    TurnBackOn(m, path, c, 4);
    StepBackOn(m, path, c, 3, Pt(c.x, c.y - 1));
    TurnBackOn(m, path, Pt(c.x, c.y - 1), 5);
  }

  lemma WestBegins(m: Mask, path: seq<State>, c: Pt)
    requires IsBorder(m, path) && Passes(m, path, c, 4) && Pt(c.x - 1, c.y - 1) !in m && Pt(c.x, c.y - 1) !in m
    ensures Passes(m, path, c, 2)
  {
    hide IsBorder, Passes;
    Unoccupied(m, path, c, 4);
    TurnBackOn(m, path, c, 4);
    TurnBackOn(m, path, c, 3);
  }

  lemma NorthCameDown(m: Mask, path: seq<State>, c: Pt)
    requires IsBorder(m, path) && Passes(m, path, c, 2) && Pt(c.x + 1, c.y - 1) in m
    ensures Passes(m, path, Pt(c.x + 1, c.y - 1), 4)
  {
    hide IsBorder, Passes;
    Unoccupied(m, path, c, 2);
    StepBackOn(m, path, c, 2, Pt(c.x + 1, c.y - 1));
  }

  lemma NorthCameOn(m: Mask, path: seq<State>, c: Pt)
    requires IsBorder(m, path) && Passes(m, path, c, 2) && Pt(c.x + 1, c.y - 1) !in m && Pt(c.x + 1, c.y) in m
    ensures Passes(m, path, Pt(c.x + 1, c.y), 2)
  {
    hide IsBorder, Passes;
    Unoccupied(m, path, c, 2);
    TurnBackOn(m, path, c, 2);
    StepBackOn(m, path, c, 1, Pt(c.x + 1, c.y));
    TurnBackOn(m, path, Pt(c.x + 1, c.y), 3);
  }

  lemma NorthBegins(m: Mask, path: seq<State>, c: Pt)
    requires IsBorder(m, path) && Passes(m, path, c, 2) && Pt(c.x + 1, c.y - 1) !in m && Pt(c.x + 1, c.y) !in m
    ensures Passes(m, path, c, 0)
  {
    hide IsBorder, Passes;
    Unoccupied(m, path, c, 2);
    TurnBackOn(m, path, c, 2);
    TurnBackOn(m, path, c, 1);
  }

  lemma SouthCameUp(m: Mask, path: seq<State>, c: Pt)
    requires IsBorder(m, path) && Passes(m, path, c, 6) && Pt(c.x - 1, c.y + 1) in m
    ensures Passes(m, path, Pt(c.x - 1, c.y + 1), 0)
  {
    hide IsBorder, Passes;
    Unoccupied(m, path, c, 6);
    StepBackOn(m, path, c, 6, Pt(c.x - 1, c.y + 1));
  }

  lemma SouthCameOn(m: Mask, path: seq<State>, c: Pt)
    requires IsBorder(m, path) && Passes(m, path, c, 6) && Pt(c.x - 1, c.y + 1) !in m && Pt(c.x - 1, c.y) in m
    ensures Passes(m, path, Pt(c.x - 1, c.y), 6)
  {
    hide IsBorder, Passes;
    Unoccupied(m, path, c, 6);
    TurnBackOn(m, path, c, 6);
    StepBackOn(m, path, c, 5, Pt(c.x - 1, c.y));
    TurnBackOn(m, path, Pt(c.x - 1, c.y), 7);
  }

  lemma SouthBegins(m: Mask, path: seq<State>, c: Pt)
    requires IsBorder(m, path) && Passes(m, path, c, 6) && Pt(c.x - 1, c.y + 1) !in m && Pt(c.x - 1, c.y) !in m
    ensures Passes(m, path, c, 4)
  {
    hide IsBorder, Passes;
    Unoccupied(m, path, c, 6);
    TurnBackOn(m, path, c, 6);
    TurnBackOn(m, path, c, 5);
  }

  // ----- Borders that pass no east side -----

  predicate Off(m: Mask, x: int, y: int) {
    Pt(x, y) !in m
  }

  /** Nothing in columns from to to of row y. */
  predicate Clear(m: Mask, from: int, to: int, y: int) {
    forall x :: from <= x <= to ==> Off(m, x, y)
  }

  /** From a north side on, moving west: a west side of the same row, and nothing above. */
  lemma {:induction false} NorthToWest(m: Mask, path: seq<State>, width: int, height: int, c: Pt) returns (l: Pt)
    requires IsBorder(m, path) && Framed(m, width, height) && NoEast(m, path, width) && Passes(m, path, c, 2)
    ensures Passes(m, path, l, 4) && l.y == c.y && l.x <= c.x && Clear(m, l.x - 1, c.x, c.y - 1)
    decreases c.x
  {
    hide Passes, IsBorder;
    Unoccupied(m, path, c, 2);
    var v, w := Pt(c.x - 1, c.y - 1), Pt(c.x - 1, c.y);
    if v in m {
      NorthGoesUp(m, path, c);
      assert false;
    } else if w in m {
      NorthGoesOn(m, path, c);
      l := NorthToWest(m, path, width, height, w);
    } else {
      NorthEnds(m, path, c);
      l := c;
    }
  }

  /** From a south side back, moving west: a west side of the same row. */
  lemma {:induction false} SouthToWest(m: Mask, path: seq<State>, width: int, height: int, c: Pt) returns (l: Pt)
    requires IsBorder(m, path) && Framed(m, width, height) && NoEast(m, path, width) && Passes(m, path, c, 6)
    ensures Passes(m, path, l, 4) && l.y == c.y
    decreases c.x
  {
    hide Passes, IsBorder;
    Unoccupied(m, path, c, 6);
    var v, w := Pt(c.x - 1, c.y + 1), Pt(c.x - 1, c.y);
    if v in m {
      SouthCameUp(m, path, c);
      assert false;
    } else if w in m {
      SouthCameOn(m, path, c);
      l := SouthToWest(m, path, width, height, w);
    } else {
      SouthBegins(m, path, c);
      l := c;
    }
  }

  /** From an east side of the last column on: a west side. */
  lemma {:induction false} EastToWest(m: Mask, path: seq<State>, width: int, height: int, c: Pt) returns (l: Pt)
    requires IsBorder(m, path) && Framed(m, width, height) && NoEast(m, path, width) && Passes(m, path, c, 0)
    ensures Passes(m, path, l, 4)
    decreases c.y
  {
    hide Passes, IsBorder;
    Unoccupied(m, path, c, 0);
    var n := Pt(c.x, c.y - 1);
    assert Pt(c.x + 1, c.y - 1) !in m;
    if n in m {
      EastGoesOn(m, path, c);
      l := EastToWest(m, path, width, height, n);
    } else {
      EastEnds(m, path, c);
      l := NorthToWest(m, path, width, height, c);
    }
  }

  /** So a border that passes any of the four sides of a pixel passes a west side. */
  lemma AnyToWest(m: Mask, path: seq<State>, width: int, height: int, q: Pt, d: Dir) returns (l: Pt)
    requires IsBorder(m, path) && Framed(m, width, height) && NoEast(m, path, width) && Passes(m, path, q, d) &&
             d % 2 == 0
    ensures Passes(m, path, l, 4)
  {
    hide Passes, IsBorder;
    if d == 0 {
      l := EastToWest(m, path, width, height, q);
    } else if d == 2 {
      l := NorthToWest(m, path, width, height, q);
    } else if d == 4 {
      l := q;
    } else {
      l := SouthToWest(m, path, width, height, q);
    }
  }

  /** From a north side back, moving east: a west side in the row above, or nothing above up to
      the last column. */
  lemma {:induction false} NorthToEast(m: Mask, path: seq<State>, width: int, height: int, c: Pt)
    returns (up: bool, l: Pt)
    requires IsBorder(m, path) && Framed(m, width, height) && NoEast(m, path, width) && Passes(m, path, c, 2)
    ensures up ==> Passes(m, path, l, 4) && l.y == c.y - 1
    ensures !up ==> Clear(m, c.x, width, c.y - 1)
    decreases width - c.x
  {
    hide Passes, IsBorder;
    Unoccupied(m, path, c, 2);
    var v, e := Pt(c.x + 1, c.y - 1), Pt(c.x + 1, c.y);
    up, l := false, c;
    if v in m {
      NorthCameDown(m, path, c);
      up, l := true, v;
    } else if e in m {
      NorthCameOn(m, path, c);
      up, l := NorthToEast(m, path, width, height, e);
    } else {
      NorthBegins(m, path, c);
    }
  }

  /** Going up along the west sides of the border to one that nothing lies above. */
  lemma {:induction false} TopOf(m: Mask, path: seq<State>, width: int, height: int, q: Pt) returns (p: Pt)
    requires IsBorder(m, path) && Framed(m, width, height) && NoEast(m, path, width) && Passes(m, path, q, 4)
    ensures Passes(m, path, p, 4) && Clear(m, p.x - 1, width, p.y - 1)
    decreases q.y
  {
    hide Passes, IsBorder, NoEast;
    Unoccupied(m, path, q, 4);
    var v, n := Pt(q.x - 1, q.y - 1), Pt(q.x, q.y - 1);
    if v in m {
      WestCameOver(m, path, q);
      var l := SouthToWest(m, path, width, height, v);
      p := TopOf(m, path, width, height, l);
    } else if n in m {
      WestCameDown(m, path, q);
      p := TopOf(m, path, width, height, n);
    } else {
      WestBegins(m, path, q);
      var up, l := NorthToEast(m, path, width, height, q);
      if up {
        p := TopOf(m, path, width, height, l);
      } else {
        p := q;
      }
    }
  }

  /** From a south side on, moving east: a west side in the row below, or nothing below up to the
      last column. */
  lemma {:induction false} SouthToEast(m: Mask, path: seq<State>, width: int, height: int, c: Pt)
    returns (down: bool, l: Pt)
    requires IsBorder(m, path) && Framed(m, width, height) && NoEast(m, path, width) && Passes(m, path, c, 6)
    ensures down ==> Passes(m, path, l, 4) && l.y == c.y + 1 && l.x > c.x && Clear(m, c.x, l.x - 1, c.y + 1)
    ensures !down ==> Clear(m, c.x, width, c.y + 1)
    decreases width - c.x
  {
    hide Passes, IsBorder;
    Unoccupied(m, path, c, 6);
    var v, e := Pt(c.x + 1, c.y + 1), Pt(c.x + 1, c.y);
    down, l := false, c;
    if v in m {
      SouthGoesDown(m, path, c);
      down, l := true, v;
    } else if e in m {
      SouthGoesOn(m, path, c);
      down, l := SouthToEast(m, path, width, height, e);
    } else {
      SouthEnds(m, path, c);
    }
  }

  /** Between west sides l and k of two rows one below the other nothing joins left and right. */
  predicate Divides(m: Mask, l: Pt, k: Pt) {
    && k.y == l.y + 1
    && Clear(m, l.x - 1, k.x - 1, l.y + 1) && Clear(m, k.x - 1, l.x - 1, l.y)
  }

  /** From a west side on, going down: the next one, or nothing below. */
  lemma WestDown(m: Mask, path: seq<State>, width: int, height: int, l: Pt) returns (down: bool, k: Pt)
    requires IsBorder(m, path) && Framed(m, width, height) && NoEast(m, path, width) && Passes(m, path, l, 4)
    ensures down ==> Passes(m, path, k, 4) && Divides(m, l, k)
    ensures !down ==> Clear(m, l.x - 1, width, l.y + 1)
  {
    hide Passes, IsBorder, NoEast;
    Unoccupied(m, path, l, 4);
    var v, s := Pt(l.x - 1, l.y + 1), Pt(l.x, l.y + 1);
    down, k := true, s;
    if v in m {
      WestTurnsOut(m, path, l);
      k := NorthToWest(m, path, width, height, v);
      assert Clear(m, k.x - 1, v.x, l.y);
    } else if s in m {
      WestGoesOn(m, path, l);
    } else {
      WestEnds(m, path, l);
      down, k := SouthToEast(m, path, width, height, l);
    }
  }

  // ----- The part of the image a border outlines -----

  /** West sides, row by row, with nothing above the first and nothing below the last, and
      nothing that leads past them. */
  ghost predicate IsOutline(m: Mask, left: seq<Pt>, width: int) {
    && |left| > 0
    && Clear(m, left[0].x - 1, width, left[0].y - 1)
    && IsLowerOutline(m, left, width)
  }

  ghost predicate IsLowerOutline(m: Mask, left: seq<Pt>, width: int) {
    && |left| > 0
    && (forall i :: 0 <= i < |left| ==> left[i].y == left[0].y + i && Off(m, left[i].x - 1, left[i].y))
    && (forall i :: 0 <= i < |left| - 1 ==> Divides(m, left[i], left[i + 1]))
    && Clear(m, left[|left| - 1].x - 1, width, left[|left| - 1].y + 1)
  }

  lemma {:induction false} OutlineFrom(m: Mask, path: seq<State>, width: int, height: int, l: Pt)
    returns (left: seq<Pt>)
    requires IsBorder(m, path) && Framed(m, width, height) && NoEast(m, path, width) && Passes(m, path, l, 4)
    ensures IsLowerOutline(m, left, width) && left[0] == l
    decreases height - l.y
  {
    hide Passes, IsBorder, NoEast, Clear;
    Unoccupied(m, path, l, 4);
    var down, k := WestDown(m, path, width, height, l);
    if down {
      assert l in m && Framed(m, width, height);
      var rest := OutlineFrom(m, path, width, height, k);
      left := [l] + rest;
      assert forall i :: 0 < i < |left| ==> left[i] == rest[i - 1];
    } else {
      left := [l];
    }
  }

  /** A border that passes a west side, but no east side in front of the last column, outlines
      a part of the image. */
  lemma OutlineOf(m: Mask, path: seq<State>, width: int, height: int, q: Pt) returns (p: Pt, left: seq<Pt>)
    requires IsBorder(m, path) && Framed(m, width, height) && NoEast(m, path, width) && Passes(m, path, q, 4)
    ensures Passes(m, path, p, 4) && p in m && Nb(p, 4) !in m
    ensures IsOutline(m, left, width) && left[0] == p
  {
    hide IsBorder, Passes, NoEast, Framed, Clear, Divides, Off;
    p := TopOf(m, path, width, height, q);
    left := OutlineFrom(m, path, width, height, p);
    Unoccupied(m, path, p, 4);
  }

  /** Pixel z lies to the right of the outline. */
  predicate Within(left: seq<Pt>, z: Pt) {
    |left| > 0 && 0 <= z.y - left[0].y < |left| && left[z.y - left[0].y].x <= z.x
  }

  /** Neighbours do. */
  lemma WithinNext(m: Mask, left: seq<Pt>, width: int, height: int, z: Pt, d: Dir)
    requires IsOutline(m, left, width) && Framed(m, width, height) && Within(left, z) && z in m && Nb(z, d) in m
    ensures Within(left, Nb(z, d))
  {
    var n := Nb(z, d);
    var i := z.y - left[0].y;
    if n.y == z.y {
      assert Off(m, left[i].x - 1, left[i].y);
    } else if n.y == z.y + 1 {
      assert Off(m, n.x, n.y) || i < |left| - 1;
      assert i < |left| - 1 ==> Divides(m, left[i], left[i + 1]);
    } else {
      assert Off(m, n.x, n.y) || i > 0;
      assert i > 0 ==> Divides(m, left[i - 1], left[i]);
    }
  }

  lemma {:induction false} WalkWithin(m: Mask, left: seq<Pt>, width: int, height: int, path: seq<State>, i: nat, j: nat)
    requires IsOutline(m, left, width) && Framed(m, width, height) && IsBorder(m, path) && i <= j < |path|
    requires Within(left, path[i].p)
    ensures Within(left, path[j].p)
  {
    hide IsOutline, Within;
    if i < j {
      WalkWithin(m, left, width, height, path, i, j - 1);
      assert Follows(m, path, j - 1);
      WithinNext(m, left, width, height, path[j - 1].p, Code(m, path[j - 1]));
    }
  }

  /** A border that enters the outlined part stays there. */
  lemma BorderWithin(m: Mask, left: seq<Pt>, width: int, height: int, path: seq<State>, i: nat)
    requires IsOutline(m, left, width) && Framed(m, width, height) && IsBorder(m, path) && i < |path|
    requires Within(left, path[i].p)
    ensures Within(left, path[0].p)
  {
    hide IsOutline, Within;
    WalkWithin(m, left, width, height, path, i, |path| - 1);
    WithinNext(m, left, width, height, path[|path| - 1].p, Code(m, path[|path| - 1]));
  }
}
