/** How many contours run linking finds.

    The number returned is the number of recorded first points, and a contour may hold several
    of them.  It is the number of contours exactly if every connected component has a single
    run with nothing above it and a single run with nothing below it. */
module LinkedContours {
  import opened PixelGrid
  import opened LinkRuns

  // ----- Runs in raster order -----

  function LineOf(pts: seq<Pt>, r: nat): int
    requires 2 * r < |pts|
  {
    pts[2 * r].y
  }

  /** Run a lies in the line above run b and they meet. */
  ghost predicate Above(pts: seq<Pt>, a: nat, b: nat) {
    Touch(pts, a, b) && LineOf(pts, a) + 1 == LineOf(pts, b)
  }

  ghost predicate IsTop(pts: seq<Pt>, r: nat) {
    2 * r + 1 < |pts| && forall a :: !Above(pts, a, r)
  }

  ghost predicate IsBottom(pts: seq<Pt>, r: nat) {
    2 * r + 1 < |pts| && forall b :: !Above(pts, r, b)
  }

  ghost predicate IsPath(pts: seq<Pt>, path: seq<nat>) {
    |path| > 0 && forall i :: 0 <= i < |path| - 1 ==> Touch(pts, path[i], path[i + 1])
  }

  ghost predicate JoinedBy(pts: seq<Pt>, path: seq<nat>, a: nat, b: nat) {
    IsPath(pts, path) && path[0] == a && path[|path| - 1] == b
  }

  /** Two runs of one connected component. */
  ghost predicate Connected(pts: seq<Pt>, a: nat, b: nat) {
    exists path :: JoinedBy(pts, path, a, b)
  }

  /** Every connected component has one run with nothing above, and one with nothing below. */
  ghost predicate SingleEnds(pts: seq<Pt>) {
    && (forall a, b :: IsTop(pts, a) && IsTop(pts, b) && Connected(pts, a, b) ==> a == b)
    && (forall a, b :: IsBottom(pts, a) && IsBottom(pts, b) && Connected(pts, a, b) ==> a == b)
  }

  /** Earlier runs lie in lines above, or further to the left in the same line. */
  ghost predicate InRaster(pts: seq<Pt>) {
    && |pts| % 2 == 0
    && (forall r: nat :: 2 * r + 1 < |pts| ==> pts[2 * r].x <= pts[2 * r + 1].x)
    && (forall a: nat, b: nat :: a < b && 2 * b + 1 < |pts| ==> Precedes(pts, a, b))
  }

  ghost predicate Precedes(pts: seq<Pt>, a: nat, b: nat)
    requires 2 * a + 1 < |pts| && 2 * b + 1 < |pts|
  {
    LineOf(pts, a) < LineOf(pts, b) || (LineOf(pts, a) == LineOf(pts, b) && pts[2 * a + 1].x + 1 < pts[2 * b].x)
  }

  // ----- Connectedness -----

  lemma Joined(pts: seq<Pt>, a: nat)
    ensures Connected(pts, a, a)
  {
    assert JoinedBy(pts, [a], a, a);
  }

  lemma JoinedOn(pts: seq<Pt>, a: nat, b: nat, c: nat)
    requires Connected(pts, a, b) && Touch(pts, b, c)
    ensures Connected(pts, a, c)
  {
    var path :| JoinedBy(pts, path, a, b);
    assert JoinedBy(pts, path + [c], a, c);
  }

  lemma {:induction false} JoinedFrom(pts: seq<Pt>, a: nat, b: nat, c: nat, path: seq<nat>)
    requires Connected(pts, a, b) && JoinedBy(pts, path, c, b)
    ensures Connected(pts, a, c)
    decreases |path|
  {
    if |path| > 1 {
      var shorter := path[..|path| - 1];
      assert Touch(pts, path[|path| - 2], path[|path| - 1]);
      JoinedOn(pts, a, b, path[|path| - 2]);
      assert JoinedBy(pts, shorter, c, path[|path| - 2]);
      JoinedFrom(pts, a, path[|path| - 2], c, shorter);
    }
  }

  lemma JoinedBoth(pts: seq<Pt>, o: nat, a: nat, b: nat)
    requires Connected(pts, o, a) && Connected(pts, o, b)
    ensures Connected(pts, a, b)
  {
    var path :| JoinedBy(pts, path, o, a);
    Joined(pts, a);
    JoinedFrom(pts, a, a, o, path);
    var rest :| JoinedBy(pts, rest, o, b);
    JoinedAll(pts, a, o, rest);
  }

  lemma {:induction false} JoinedAll(pts: seq<Pt>, a: nat, o: nat, path: seq<nat>)
    requires Connected(pts, a, o) && IsPath(pts, path) && path[0] == o
    ensures Connected(pts, a, path[|path| - 1])
    decreases |path|
  {
    if |path| > 1 {
      var shorter := path[..|path| - 1];
      assert Touch(pts, path[|path| - 2], path[|path| - 1]);
      assert IsPath(pts, shorter);
      JoinedAll(pts, a, o, shorter);
      JoinedOn(pts, a, path[|path| - 2], path[|path| - 1]);
    }
  }

  // ----- Order of meeting runs -----

  /** Two pairs of meeting runs do not cross. */
  lemma NoCrossing(pts: seq<Pt>, a: nat, b: nat, c: nat, d: nat)
    requires InRaster(pts) && a < c && Above(pts, a, b) && Above(pts, c, d) && LineOf(pts, a) == LineOf(pts, c)
    ensures b <= d
  {
    assert Precedes(pts, a, c);
    assert d >= b || Precedes(pts, d, b);
  }

  /** The runs above a run are neighbours. */
  lemma BetweenAbove(pts: seq<Pt>, a: nat, m: nat, c: nat, b: nat)
    requires InRaster(pts) && a <= m <= c && Above(pts, a, b) && Above(pts, c, b)
    ensures Above(pts, m, b)
  {
    if a < m < c {
      assert Precedes(pts, a, m) && Precedes(pts, m, c);
    }
  }

  /** The runs below a run are neighbours. */
  lemma BetweenBelow(pts: seq<Pt>, a: nat, b: nat, m: nat, d: nat)
    requires InRaster(pts) && b <= m <= d && Above(pts, a, b) && Above(pts, a, d)
    ensures Above(pts, a, m)
  {
    if b < m < d {
      assert Precedes(pts, b, m) && Precedes(pts, m, d);
    }
  }

  // ----- The links, run by run -----

  /** Down the right side, from run a to the rightmost run below it. */
  ghost predicate RightStep(pts: seq<Pt>, link: map<nat, nat>, a: nat, b: nat) {
    && 2 * a + 1 in link && link[2 * a + 1] == 2 * b + 1
    && Above(pts, a, b) && !Above(pts, a + 1, b) && (forall x: nat :: Above(pts, a, x) ==> x <= b)
  }

  /** Up the left side, from run b to the leftmost run above it. */
  ghost predicate LeftStep(pts: seq<Pt>, link: map<nat, nat>, b: nat, a: nat) {
    && 2 * b in link && link[2 * b] == 2 * a
    && Above(pts, a, b) && !(b > 0 && Above(pts, a, b - 1)) && (forall x: nat :: Above(pts, x, b) ==> a <= x)
  }

  /** A contour turns over above run r. */
  ghost predicate TurnsOver(pts: seq<Pt>, link: map<nat, nat>, r: nat) {
    2 * r in link && IsTop(pts, r) && link[2 * r] == 2 * r + 1
  }

  /** A contour turns over in the gap between run r and the run before it. */
  ghost predicate TurnsInGap(pts: seq<Pt>, link: map<nat, nat>, r: nat) {
    r > 0 && 2 * r in link && link[2 * r] == 2 * r - 1 && exists k :: Roof(pts, k, r)
  }

  ghost predicate Roof(pts: seq<Pt>, k: nat, r: nat)
    requires r > 0
  {
    Above(pts, k, r) && Above(pts, k, r - 1)
  }

  /** A contour turns back below run r. */
  ghost predicate TurnsBack(pts: seq<Pt>, link: map<nat, nat>, r: nat) {
    2 * r + 1 in link && IsBottom(pts, r) && link[2 * r + 1] == 2 * r
  }

  /** A contour turns back in the gap between run r and the run after it. */
  ghost predicate TurnsBackInGap(pts: seq<Pt>, link: map<nat, nat>, r: nat) {
    2 * r + 1 in link && link[2 * r + 1] == 2 * r + 2 && exists n :: Floor(pts, r, n)
  }

  ghost predicate Floor(pts: seq<Pt>, r: nat, n: nat) {
    Above(pts, r, n) && Above(pts, r + 1, n)
  }

  ghost predicate RunLinked(pts: seq<Pt>, link: map<nat, nat>, r: nat) {
    && (TurnsOver(pts, link, r) || TurnsInGap(pts, link, r) || exists a: nat :: LeftStep(pts, link, r, a))
    && (TurnsBack(pts, link, r) || TurnsBackInGap(pts, link, r) || exists b: nat :: RightStep(pts, link, r, b))
  }

  ghost predicate Linked(pts: seq<Pt>, link: map<nat, nat>) {
    InRaster(pts) && forall r: nat :: 2 * r + 1 < |pts| ==> RunLinked(pts, link, r)
  }

  /** What lies right of a step down stays right of it, going down. */
  lemma RightStaysDown(pts: seq<Pt>, link: map<nat, nat>, a: nat, b: nat, x: nat, z: nat)
    requires InRaster(pts) && RightStep(pts, link, a, b) && Above(pts, x, z) && LineOf(pts, x) == LineOf(pts, a) &&
             x > a
    ensures z > b && LineOf(pts, z) == LineOf(pts, b)
  {
    NoCrossing(pts, a, b, x, z);
    if z == b {
      BetweenAbove(pts, a, a + 1, x, b);
    }
  }

  /** And going up. */
  lemma RightStaysUp(pts: seq<Pt>, link: map<nat, nat>, a: nat, b: nat, x: nat, z: nat)
    requires InRaster(pts) && RightStep(pts, link, a, b) && Above(pts, x, z) && LineOf(pts, z) == LineOf(pts, b) &&
             z > b
    ensures x > a && LineOf(pts, x) == LineOf(pts, a)
  {
    if x < a {
      NoCrossing(pts, x, z, a, b);
    }
  }

  /** What lies left of a step up stays left of it, going down. */
  lemma LeftStaysDown(pts: seq<Pt>, link: map<nat, nat>, b: nat, a: nat, x: nat, z: nat)
    requires InRaster(pts) && LeftStep(pts, link, b, a) && Above(pts, x, z) && LineOf(pts, x) == LineOf(pts, a) && x < a
    ensures z < b && LineOf(pts, z) == LineOf(pts, b)
  {
    NoCrossing(pts, x, z, a, b);
  }

  /** And going up. */
  lemma LeftStaysUp(pts: seq<Pt>, link: map<nat, nat>, b: nat, a: nat, x: nat, z: nat)
    requires InRaster(pts) && LeftStep(pts, link, b, a) && Above(pts, x, z) && LineOf(pts, z) == LineOf(pts, b) && z < b
    ensures x < a && LineOf(pts, x) == LineOf(pts, a)
  {
    if x > a {
      NoCrossing(pts, a, b, x, z);
    } else if x == a {
      BetweenBelow(pts, a, z, b - 1, b);
    }
  }

  // ----- Down the right side and up the left side -----

  /** From run q[0] down the right side until the contour turns back. */
  ghost predicate IsDescent(pts: seq<Pt>, link: map<nat, nat>, q: seq<nat>) {
    && |q| > 0
    && (forall i :: 0 <= i < |q| - 1 ==> RightStep(pts, link, q[i], q[i + 1]))
    && (TurnsBack(pts, link, q[|q| - 1]) || TurnsBackInGap(pts, link, q[|q| - 1]))
  }

  /** From run p[0] up the left side until the contour turns over. */
  ghost predicate IsAscent(pts: seq<Pt>, link: map<nat, nat>, p: seq<nat>) {
    && |p| > 0
    && (forall i :: 0 <= i < |p| - 1 ==> LeftStep(pts, link, p[i], p[i + 1]))
    && (TurnsOver(pts, link, p[|p| - 1]) || TurnsInGap(pts, link, p[|p| - 1]))
  }

  lemma {:induction false} Descend(pts: seq<Pt>, link: map<nat, nat>, r: nat) returns (q: seq<nat>)
    requires Linked(pts, link) && 2 * r + 1 < |pts|
    ensures IsDescent(pts, link, q) && q[0] == r
    decreases |pts| - r
  {
    assert RunLinked(pts, link, r);
    if TurnsBack(pts, link, r) || TurnsBackInGap(pts, link, r) {
      q := [r];
    } else {
      var b: nat :| RightStep(pts, link, r, b);
      assert b > r by {
        Lower(pts, r, b);
      }
      var rest := Descend(pts, link, b);
      q := [r] + rest;
      assert forall i :: 0 < i < |q| ==> q[i] == rest[i - 1];
    }
  }

  lemma {:induction false} Ascend(pts: seq<Pt>, link: map<nat, nat>, r: nat) returns (p: seq<nat>)
    requires Linked(pts, link) && 2 * r + 1 < |pts|
    ensures IsAscent(pts, link, p) && p[0] == r
    decreases r
  {
    assert RunLinked(pts, link, r);
    if TurnsOver(pts, link, r) || TurnsInGap(pts, link, r) {
      p := [r];
    } else {
      var a: nat :| LeftStep(pts, link, r, a);
      assert a < r by {
        Lower(pts, a, r);
      }
      var rest := Ascend(pts, link, a);
      p := [r] + rest;
      assert forall i :: 0 < i < |p| ==> p[i] == rest[i - 1];
    }
  }

  /** A run in the line below comes later. */
  lemma Lower(pts: seq<Pt>, a: nat, b: nat)
    requires InRaster(pts) && Above(pts, a, b)
    ensures a < b
  {
    assert b >= a || Precedes(pts, b, a);
  }

  lemma {:induction false} DescentLine(pts: seq<Pt>, link: map<nat, nat>, q: seq<nat>, i: nat)
    requires IsDescent(pts, link, q) && i < |q|
    ensures 2 * q[0] + 1 < |pts| && 2 * q[i] + 1 < |pts| && LineOf(pts, q[i]) == LineOf(pts, q[0]) + i
    ensures Connected(pts, q[0], q[i])
  {
    if i == 0 {
      Joined(pts, q[0]);
      assert |q| > 1 ==> RightStep(pts, link, q[0], q[1]);
    } else {
      DescentLine(pts, link, q, i - 1);
      assert RightStep(pts, link, q[i - 1], q[i]);
      JoinedOn(pts, q[0], q[i - 1], q[i]);
    }
  }

  lemma {:induction false} AscentLine(pts: seq<Pt>, link: map<nat, nat>, p: seq<nat>, i: nat)
    requires IsAscent(pts, link, p) && i < |p|
    ensures 2 * p[0] + 1 < |pts| && 2 * p[i] + 1 < |pts| && LineOf(pts, p[i]) == LineOf(pts, p[0]) - i
    ensures Connected(pts, p[0], p[i])
  {
    if i == 0 {
      Joined(pts, p[0]);
      assert |p| > 1 ==> LeftStep(pts, link, p[0], p[1]);
    } else {
      AscentLine(pts, link, p, i - 1);
      assert LeftStep(pts, link, p[i - 1], p[i]);
      TouchBack(pts, p[i], p[i - 1]);
      JoinedOn(pts, p[0], p[i - 1], p[i]);
    }
  }

  lemma TouchBack(pts: seq<Pt>, a: nat, b: nat)
    requires Touch(pts, a, b)
    ensures Touch(pts, b, a)
  {
  }

  // ----- Climbing and falling past a side -----

  /** Every run is connected to one with nothing above, no lower than itself. */
  lemma {:induction false} Climb(pts: seq<Pt>, o: nat, r: nat) returns (t: nat)
    requires InRaster(pts) && 2 * r + 1 < |pts| && Connected(pts, o, r)
    ensures IsTop(pts, t) && Connected(pts, o, t) && LineOf(pts, t) <= LineOf(pts, r)
    decreases r
  {
    if IsTop(pts, r) {
      t := r;
    } else {
      var a :| Above(pts, a, r);
      Lower(pts, a, r);
      TouchBack(pts, a, r);
      JoinedOn(pts, o, r, a);
      t := Climb(pts, o, a);
    }
  }

  /** Every run is connected to one with nothing below, no higher than itself. */
  lemma {:induction false} Fall(pts: seq<Pt>, o: nat, r: nat) returns (b: nat)
    requires InRaster(pts) && 2 * r + 1 < |pts| && Connected(pts, o, r)
    ensures IsBottom(pts, b) && Connected(pts, o, b) && LineOf(pts, b) >= LineOf(pts, r)
    decreases |pts| - r
  {
    if IsBottom(pts, r) {
      b := r;
    } else {
      var z :| Above(pts, r, z);
      Lower(pts, r, z);
      JoinedOn(pts, o, r, z);
      b := Fall(pts, o, z);
    }
  }

  /** Climbing on the right of a descent never leads to its first run. */
  lemma {:induction false} ClimbRight(pts: seq<Pt>, link: map<nat, nat>, q: seq<nat>, i: nat, o: nat, r: nat)
    returns (t: nat)
    requires InRaster(pts) && IsDescent(pts, link, q) && i < |q| && 2 * r + 1 < |pts| && Connected(pts, o, r)
    requires 2 * q[i] < |pts| && LineOf(pts, r) == LineOf(pts, q[i]) && r > q[i]
    ensures IsTop(pts, t) && Connected(pts, o, t) && t != q[0]
    decreases i
  {
    DescentLine(pts, link, q, i);
    if IsTop(pts, r) {
      t := r;
    } else {
      var a :| Above(pts, a, r);
      TouchBack(pts, a, r);
      JoinedOn(pts, o, r, a);
      if i == 0 {
        t := Climb(pts, o, a);
      } else {
        RightStaysUp(pts, link, q[i - 1], q[i], a, r);
        t := ClimbRight(pts, link, q, i - 1, o, a);
      }
    }
  }

  /** Falling on the right of a descent never leads to its last run. */
  lemma {:induction false} FallRight(pts: seq<Pt>, link: map<nat, nat>, q: seq<nat>, i: nat, o: nat, r: nat)
    returns (b: nat)
    requires InRaster(pts) && IsDescent(pts, link, q) && i < |q| && 2 * r + 1 < |pts| && Connected(pts, o, r)
    requires 2 * q[i] < |pts| && LineOf(pts, r) == LineOf(pts, q[i]) && r > q[i]
    ensures IsBottom(pts, b) && Connected(pts, o, b) && b != q[|q| - 1]
    decreases |q| - i
  {
    DescentLine(pts, link, q, i);
    DescentLine(pts, link, q, |q| - 1);
    if IsBottom(pts, r) {
      b := r;
    } else {
      var z :| Above(pts, r, z);
      JoinedOn(pts, o, r, z);
      if i == |q| - 1 {
        b := Fall(pts, o, z);
      } else {
        RightStaysDown(pts, link, q[i], q[i + 1], r, z);
        b := FallRight(pts, link, q, i + 1, o, z);
      }
    }
  }

  /** Climbing on the left of an ascent never leads to its last run. */
  lemma {:induction false} ClimbLeft(pts: seq<Pt>, link: map<nat, nat>, p: seq<nat>, i: nat, o: nat, r: nat)
    returns (t: nat)
    requires InRaster(pts) && IsAscent(pts, link, p) && i < |p| && 2 * r + 1 < |pts| && Connected(pts, o, r)
    requires 2 * p[i] < |pts| && LineOf(pts, r) == LineOf(pts, p[i]) && r < p[i]
    ensures IsTop(pts, t) && Connected(pts, o, t) && t != p[|p| - 1]
    decreases |p| - i
  {
    AscentLine(pts, link, p, i);
    AscentLine(pts, link, p, |p| - 1);
    if IsTop(pts, r) {
      t := r;
    } else {
      var a :| Above(pts, a, r);
      TouchBack(pts, a, r);
      JoinedOn(pts, o, r, a);
      if i == |p| - 1 {
        t := Climb(pts, o, a);
      } else {
        LeftStaysUp(pts, link, p[i], p[i + 1], a, r);
        t := ClimbLeft(pts, link, p, i + 1, o, a);
      }
    }
  }

  /** Falling on the left of an ascent never leads to its first run. */
  lemma {:induction false} FallLeft(pts: seq<Pt>, link: map<nat, nat>, p: seq<nat>, i: nat, o: nat, r: nat)
    returns (b: nat)
    requires InRaster(pts) && IsAscent(pts, link, p) && i < |p| && 2 * r + 1 < |pts| && Connected(pts, o, r)
    requires 2 * p[i] < |pts| && LineOf(pts, r) == LineOf(pts, p[i]) && r < p[i]
    ensures IsBottom(pts, b) && Connected(pts, o, b) && b != p[0]
    decreases i
  {
    AscentLine(pts, link, p, i);
    if IsBottom(pts, r) {
      b := r;
    } else {
      var z :| Above(pts, r, z);
      JoinedOn(pts, o, r, z);
      if i == 0 {
        b := Fall(pts, o, z);
      } else {
        LeftStaysDown(pts, link, p[i - 1], p[i], r, z);
        b := FallLeft(pts, link, p, i - 1, o, z);
      }
    }
  }

  // ----- Once around a contour -----

  /** A contour turns over at run r: its left end is linked to a right end. */
  ghost predicate IsTurn(pts: seq<Pt>, link: map<nat, nat>, r: nat) {
    TurnsOver(pts, link, r) || TurnsInGap(pts, link, r)
  }

  /** Where the contour goes down again. */
  ghost function Behind(pts: seq<Pt>, link: map<nat, nat>, r: nat): nat
    requires IsTurn(pts, link, r)
  {
    if TurnsOver(pts, link, r) then r else r - 1
  }

  /** Where the contour goes up again. */
  ghost function Beyond(pts: seq<Pt>, link: map<nat, nat>, r: nat): nat {
    if TurnsBack(pts, link, r) then r else r + 1
  }

  /** From the turn m down, back, and up to the same turn. */
  ghost predicate IsLoop(pts: seq<Pt>, link: map<nat, nat>, m: nat, q: seq<nat>, p: seq<nat>) {
    && IsTurn(pts, link, m) && IsDescent(pts, link, q) && IsAscent(pts, link, p)
    && q[0] == Behind(pts, link, m) && p[0] == Beyond(pts, link, q[|q| - 1]) && p[|p| - 1] == m
  }

  predicate InLoop(q: seq<nat>, p: seq<nat>, i: nat) {
    if IsLeft(i) then Run(i) in p else Run(i) in q
  }

  lemma LoopClosed(pts: seq<Pt>, link: map<nat, nat>, m: nat, q: seq<nat>, p: seq<nat>, i: nat)
    requires IsLoop(pts, link, m, q, p) && InLoop(q, p, i)
    ensures i in link && InLoop(q, p, link[i])
  {
    if IsLeft(i) {
      var j :| 0 <= j < |p| && p[j] == Run(i);
      assert j < |p| - 1 ==> LeftStep(pts, link, p[j], p[j + 1]);
    } else {
      var j :| 0 <= j < |q| && q[j] == Run(i);
      assert j < |q| - 1 ==> RightStep(pts, link, q[j], q[j + 1]);
    }
  }

  lemma {:induction false} LoopFrom(pts: seq<Pt>, link: map<nat, nat>, m: nat, q: seq<nat>, p: seq<nat>, w: seq<nat>,
                                    j: nat, k: nat)
    requires IsLoop(pts, link, m, q, p) && IsCycle(link, w) && j <= k < |w| && InLoop(q, p, w[j])
    ensures InLoop(q, p, w[k])
  {
    hide IsLoop, InLoop;
    if j < k {
      LoopFrom(pts, link, m, q, p, w, j, k - 1);
      assert LinkedAt(link, w, k - 1);
      LoopClosed(pts, link, m, q, p, w[k - 1]);
    }
  }

  /** The contour through m is the loop at m. */
  lemma ContourIsLoop(pts: seq<Pt>, link: map<nat, nat>, m: nat, q: seq<nat>, p: seq<nat>, w: seq<nat>, i: nat)
    requires IsLoop(pts, link, m, q, p) && IsCycle(link, w) && 2 * m in w && i in w
    ensures InLoop(q, p, i)
  {
    var j :| 0 <= j < |w| && w[j] == 2 * m;
    assert InLoop(q, p, w[j]);
    hide IsLoop, InLoop;
    LoopFrom(pts, link, m, q, p, w, j, |w| - 1);
    LoopClosed(pts, link, m, q, p, w[|w| - 1]);
    var k :| 0 <= k < |w| && w[k] == i;
    LoopFrom(pts, link, m, q, p, w, 0, k);
  }

  /** There is no other turn on it. */
  lemma LoopTurnsOnce(pts: seq<Pt>, link: map<nat, nat>, m: nat, q: seq<nat>, p: seq<nat>, r: nat)
    requires IsLoop(pts, link, m, q, p) && IsTurn(pts, link, r) && InLoop(q, p, 2 * r)
    ensures r == m
  {
    var j :| 0 <= j < |p| && p[j] == r;
    assert j < |p| - 1 ==> LeftStep(pts, link, p[j], p[j + 1]);
  }

  // ----- Single ends, hence single turns -----

  lemma JoinedThrough(pts: seq<Pt>, a: nat, b: nat, c: nat)
    requires Connected(pts, a, b) && Connected(pts, b, c)
    ensures Connected(pts, a, c)
  {
    var path :| JoinedBy(pts, path, b, c);
    JoinedAll(pts, a, b, path);
  }

  /** Two runs with a common neighbour. */
  lemma JoinedOver(pts: seq<Pt>, o: nat, a: nat, c: nat, b: nat)
    requires Connected(pts, o, a) && Touch(pts, a, c) && Touch(pts, c, b)
    ensures Connected(pts, o, c) && Connected(pts, o, b)
  {
    JoinedOn(pts, o, a, c);
    JoinedOn(pts, o, c, b);
  }

  lemma SameTop(pts: seq<Pt>, o: nat, a: nat, b: nat)
    requires SingleEnds(pts) && IsTop(pts, a) && IsTop(pts, b) && Connected(pts, o, a) && Connected(pts, o, b)
    ensures a == b
  {
    JoinedBoth(pts, o, a, b);
  }

  lemma SameBottom(pts: seq<Pt>, o: nat, a: nat, b: nat)
    requires SingleEnds(pts) && IsBottom(pts, a) && IsBottom(pts, b) && Connected(pts, o, a) && Connected(pts, o, b)
    ensures a == b
  {
    JoinedBoth(pts, o, a, b);
  }

  /** The contour that turns over above a single top comes back to it. */
  lemma TopLoop(pts: seq<Pt>, link: map<nat, nat>, t: nat) returns (q: seq<nat>, p: seq<nat>)
    requires Linked(pts, link) && SingleEnds(pts) && TurnsOver(pts, link, t)
    ensures IsLoop(pts, link, t, q, p)
  {
    hide SingleEnds, Connected, Touch, InRaster, RunLinked;
    q := Descend(pts, link, t);
    var k := q[|q| - 1];
    DescentLine(pts, link, q, |q| - 1);
    if !TurnsBack(pts, link, k) {
      var n :| Floor(pts, k, n);
      TouchBack(pts, k + 1, n);
      JoinedOver(pts, t, k, n, k + 1);
      var u := ClimbRight(pts, link, q, |q| - 1, t, k + 1);
      Joined(pts, t);
      SameTop(pts, t, t, u);
    }
    p := Ascend(pts, link, k);
    var m := p[|p| - 1];
    AscentLine(pts, link, p, |p| - 1);
    JoinedThrough(pts, t, k, m);
    if TurnsOver(pts, link, m) {
      Joined(pts, t);
      SameTop(pts, t, t, m);
    } else {
      var u :| Roof(pts, u, m);
      TouchBack(pts, u, m);
      JoinedOver(pts, t, m, u, m - 1);
      var b := FallLeft(pts, link, p, |p| - 1, t, m - 1);
      SameBottom(pts, t, k, b);
    }
  }

  /** A descent and an ascent that meet in a gap: run p[0] comes right after the last of q. */
  ghost predicate MeetInGap(pts: seq<Pt>, link: map<nat, nat>, q: seq<nat>, p: seq<nat>) {
    && IsDescent(pts, link, q) && IsAscent(pts, link, p) && p[0] == q[|q| - 1] + 1
    && 2 * p[0] < |pts| && LineOf(pts, p[0]) == LineOf(pts, q[|q| - 1])
  }

  /** The index in the ascent of the run in the line of q[i]. */
  function Opposite(q: seq<nat>, i: nat): int {
    |q| - 1 - i
  }

  lemma OppositeLine(pts: seq<Pt>, link: map<nat, nat>, q: seq<nat>, p: seq<nat>, i: nat)
    requires IsDescent(pts, link, q) && IsAscent(pts, link, p) && i < |q| && Opposite(q, i) < |p|
    requires 2 * p[0] < |pts| && 2 * q[|q| - 1] < |pts| && LineOf(pts, p[0]) == LineOf(pts, q[|q| - 1])
    ensures 2 * q[i] + 1 < |pts| && 2 * p[Opposite(q, i)] + 1 < |pts| &&
            LineOf(pts, q[i]) == LineOf(pts, p[Opposite(q, i)])
  {
    DescentLine(pts, link, q, i);
    DescentLine(pts, link, q, |q| - 1);
    AscentLine(pts, link, p, Opposite(q, i));
  }

  /** Above a gap the descent stays left of the ascent. */
  lemma {:induction false} SidesApart(pts: seq<Pt>, link: map<nat, nat>, q: seq<nat>, p: seq<nat>, i: nat)
    requires InRaster(pts) && MeetInGap(pts, link, q, p) && i < |q| && Opposite(q, i) < |p|
    ensures q[i] < p[Opposite(q, i)]
    decreases |q| - i
  {
    hide InRaster;
    if i < |q| - 1 {
      var j := Opposite(q, i);
      SidesApart(pts, link, q, p, i + 1);
      OppositeLine(pts, link, q, p, i + 1);
      assert LeftStep(pts, link, p[j - 1], p[j]) && RightStep(pts, link, q[i], q[i + 1]);
      RightStaysUp(pts, link, q[i], q[i + 1], p[j], p[j - 1]);
    }
  }

  /** Falling between them ends no lower than the gap. */
  lemma {:induction false} FallBetween(pts: seq<Pt>, link: map<nat, nat>, q: seq<nat>, p: seq<nat>, i: nat, o: nat,
                                       r: nat)
    returns (b: nat)
    requires InRaster(pts) && MeetInGap(pts, link, q, p) && i < |q| && Opposite(q, i) < |p|
    requires 2 * r + 1 < |pts| && q[i] < r < p[Opposite(q, i)] && Connected(pts, o, r)
    requires 2 * q[i] < |pts| && LineOf(pts, r) == LineOf(pts, q[i])
    ensures IsBottom(pts, b) && Connected(pts, o, b) && LineOf(pts, b) <= LineOf(pts, p[0])
    decreases |q| - i
  {
    hide InRaster, Connected;
    OppositeLine(pts, link, q, p, i);
    DescentLine(pts, link, q, i);
    DescentLine(pts, link, q, |q| - 1);
    if IsBottom(pts, r) {
      b := r;
    } else {
      var z :| Above(pts, r, z);
      JoinedOn(pts, o, r, z);
      var j := Opposite(q, i);
      assert LeftStep(pts, link, p[j - 1], p[j]) && RightStep(pts, link, q[i], q[i + 1]);
      RightStaysDown(pts, link, q[i], q[i + 1], r, z);
      LeftStaysDown(pts, link, p[j - 1], p[j], r, z);
      b := FallBetween(pts, link, q, p, i + 1, o, z);
    }
  }

  /** So nothing of a component with a single bottom lies between them. */
  lemma NothingBetween(pts: seq<Pt>, link: map<nat, nat>, q: seq<nat>, p: seq<nat>, i: nat, o: nat, r: nat, n: nat)
    requires InRaster(pts) && SingleEnds(pts) && MeetInGap(pts, link, q, p) && i < |q| && Opposite(q, i) < |p|
    requires 2 * r + 1 < |pts| && Connected(pts, o, r) && Connected(pts, o, p[0]) && Above(pts, p[0], n)
    requires 2 * q[i] < |pts| && LineOf(pts, r) == LineOf(pts, q[i])
    ensures !(q[i] < r < p[Opposite(q, i)])
  {
    hide InRaster, Connected, SingleEnds, MeetInGap;
    if q[i] < r < p[Opposite(q, i)] {
      var b := FallBetween(pts, link, q, p, i, o, r);
      JoinedOn(pts, o, p[0], n);
      var c := Fall(pts, o, n);
      SameBottom(pts, o, b, c);
    }
  }

  /** The contour that turns over in a gap turns back in a gap. */
  lemma GapSides(pts: seq<Pt>, link: map<nat, nat>, r: nat) returns (q: seq<nat>, p: seq<nat>, n: nat)
    requires Linked(pts, link) && SingleEnds(pts) && TurnsInGap(pts, link, r)
    ensures MeetInGap(pts, link, q, p) && q[0] == r - 1 && Floor(pts, q[|q| - 1], n)
    ensures TurnsBackInGap(pts, link, q[|q| - 1]) && TurnsInGap(pts, link, p[|p| - 1])
    ensures Connected(pts, r - 1, r) && Connected(pts, r - 1, p[0])
  {
    hide SingleEnds, Connected, InRaster, RunLinked;
    var o := r - 1;
    var u :| Roof(pts, u, r);
    TouchBack(pts, u, o);
    Joined(pts, o);
    JoinedOver(pts, o, o, u, r);
    q := Descend(pts, link, o);
    var k := q[|q| - 1];
    DescentLine(pts, link, q, |q| - 1);
    if TurnsBack(pts, link, k) {
      var b := FallRight(pts, link, q, 0, o, r);
      SameBottom(pts, o, k, b);
    }
    n :| Floor(pts, k, n);
    TouchBack(pts, k + 1, n);
    JoinedOver(pts, o, k, n, k + 1);
    p := Ascend(pts, link, k + 1);
    var m := p[|p| - 1];
    AscentLine(pts, link, p, |p| - 1);
    JoinedThrough(pts, o, k + 1, m);
    if TurnsOver(pts, link, m) {
      var t := ClimbLeft(pts, link, p, 0, o, k);
      SameTop(pts, o, m, t);
    }
  }

  /** The two turns lie in the same line: neither can be below the other. */
  lemma GapNotLower(pts: seq<Pt>, link: map<nat, nat>, r: nat, q: seq<nat>, p: seq<nat>, n: nat)
    requires Linked(pts, link) && SingleEnds(pts) && TurnsInGap(pts, link, r)
    requires MeetInGap(pts, link, q, p) && q[0] == r - 1 && Floor(pts, q[|q| - 1], n) &&
             TurnsInGap(pts, link, p[|p| - 1])
    requires Connected(pts, r - 1, p[0])
    ensures |p| >= |q|
  {
    hide SingleEnds, Connected, InRaster, RunLinked;
    if |p| < |q| {
      var i, m := |q| - |p|, p[|p| - 1];
      SidesApart(pts, link, q, p, i);
      OppositeLine(pts, link, q, p, i);
      var u :| Roof(pts, u, m);
      AscentLine(pts, link, p, |p| - 1);
      JoinedThrough(pts, r - 1, p[0], m);
      TouchBack(pts, u, m);
      JoinedOver(pts, r - 1, m, u, m - 1);
      NothingBetween(pts, link, q, p, i, r - 1, m - 1, n);
      assert RightStep(pts, link, q[i - 1], q[i]);
      RightStaysUp(pts, link, q[i - 1], q[i], u, m);
      RightStaysDown(pts, link, q[i - 1], q[i], u, m - 1);
    }
  }

  /** The contour that turns over in a gap comes back to it. */
  lemma GapLoop(pts: seq<Pt>, link: map<nat, nat>, r: nat) returns (q: seq<nat>, p: seq<nat>)
    requires Linked(pts, link) && SingleEnds(pts) && TurnsInGap(pts, link, r)
    ensures IsLoop(pts, link, r, q, p)
  {
    var n;
    q, p, n := GapSides(pts, link, r);
    GapNotLower(pts, link, r, q, p, n);
    hide SingleEnds, Connected, InRaster, RunLinked;
    var j := Opposite(q, 0);
    SidesApart(pts, link, q, p, 0);
    OppositeLine(pts, link, q, p, 0);
    var u :| Roof(pts, u, r);
    NothingBetween(pts, link, q, p, 0, r - 1, r, n);
    assert p[j] == r;
    assert j < |p| - 1 ==> LeftStep(pts, link, p[j], p[j + 1]);
  }

  /** With single ends every contour turns over once. */
  lemma TurnsOnce(pts: seq<Pt>, link: map<nat, nat>, w: seq<nat>, a: nat, b: nat)
    requires Linked(pts, link) && SingleEnds(pts) && IsCycle(link, w)
    requires IsTurn(pts, link, a) && IsTurn(pts, link, b) && 2 * a in w && 2 * b in w
    ensures a == b
  {
    hide SingleEnds, IsCycle;
    var q, p;
    if TurnsOver(pts, link, a) {
      q, p := TopLoop(pts, link, a);
    } else {
      q, p := GapLoop(pts, link, a);
    }
    hide IsLoop, Linked;
    ContourIsLoop(pts, link, a, q, p, w, 2 * b);
    LoopTurnsOnce(pts, link, a, q, p, b);
  }

  // ----- Single turns, hence single ends -----

  /** The contour holds no two turns. */
  ghost predicate OneTurn(pts: seq<Pt>, link: map<nat, nat>, w: seq<nat>) {
    forall a: nat, b: nat :: IsTurn(pts, link, a) && IsTurn(pts, link, b) && 2 * a in w && 2 * b in w ==> a == b
  }

  lemma {:induction false} OnDescent(pts: seq<Pt>, link: map<nat, nat>, w: seq<nat>, q: seq<nat>, i: nat)
    requires IsCycle(link, w) && IsDescent(pts, link, q) && 2 * q[0] + 1 in w && i < |q|
    ensures 2 * q[i] + 1 in w
  {
    hide IsCycle;
    if i > 0 {
      OnDescent(pts, link, w, q, i - 1);
      assert RightStep(pts, link, q[i - 1], q[i]);
      CycleClosed(link, w, 2 * q[i - 1] + 1);
    }
  }

  lemma {:induction false} OnAscent(pts: seq<Pt>, link: map<nat, nat>, w: seq<nat>, p: seq<nat>, i: nat)
    requires IsCycle(link, w) && IsAscent(pts, link, p) && 2 * p[0] in w && i < |p|
    ensures 2 * p[i] in w
  {
    hide IsCycle;
    if i > 0 {
      OnAscent(pts, link, w, p, i - 1);
      assert LeftStep(pts, link, p[i - 1], p[i]);
      CycleClosed(link, w, 2 * p[i - 1]);
    }
  }

  /** The loop of the only turn of a contour. */
  lemma LoopOf(pts: seq<Pt>, link: map<nat, nat>, w: seq<nat>, m: nat) returns (q: seq<nat>, p: seq<nat>)
    requires Linked(pts, link) && IsCycle(link, w) && OneTurn(pts, link, w) && IsTurn(pts, link, m) && 2 * m in w
    ensures IsLoop(pts, link, m, q, p)
  {
    hide IsCycle, InRaster, RunLinked;
    q := Descend(pts, link, Behind(pts, link, m));
    CycleClosed(link, w, 2 * m);
    OnDescent(pts, link, w, q, |q| - 1);
    CycleClosed(link, w, 2 * q[|q| - 1] + 1);
    p := Ascend(pts, link, Beyond(pts, link, q[|q| - 1]));
    OnAscent(pts, link, w, p, |p| - 1);
    assert IsTurn(pts, link, p[|p| - 1]);
  }

  /** The ends of a loop lie in the same lines. */
  lemma LoopLines(pts: seq<Pt>, link: map<nat, nat>, m: nat, q: seq<nat>, p: seq<nat>)
    requires InRaster(pts) && IsLoop(pts, link, m, q, p)
    ensures |p| == |q| && 2 * p[0] < |pts| && 2 * q[|q| - 1] < |pts| && LineOf(pts, p[0]) == LineOf(pts, q[|q| - 1])
    ensures 2 * m + 1 < |pts| && LineOf(pts, m) == LineOf(pts, q[0])
  {
    hide InRaster;
    DescentLine(pts, link, q, |q| - 1);
    AscentLine(pts, link, p, |p| - 1);
  }

  /** A contour that turns over above a run keeps its left side left, and so turns back below a run. */
  lemma {:induction false} SidesOrdered(pts: seq<Pt>, link: map<nat, nat>, t: nat, q: seq<nat>, p: seq<nat>, i: nat)
    requires InRaster(pts) && IsLoop(pts, link, t, q, p) && TurnsOver(pts, link, t) && i < |q| == |p|
    ensures p[Opposite(q, i)] <= q[i]
  {
    hide InRaster;
    LoopLines(pts, link, t, q, p);
    if i > 0 {
      var j := Opposite(q, i);
      SidesOrdered(pts, link, t, q, p, i - 1);
      OppositeLine(pts, link, q, p, i);
      assert LeftStep(pts, link, p[j], p[j + 1]) && RightStep(pts, link, q[i - 1], q[i]);
      if p[j] > q[i] {
        RightStaysUp(pts, link, q[i - 1], q[i], p[j + 1], p[j]);
      }
    }
  }

  /** A contour that turns over in a gap keeps its sides apart, and so turns back in a gap. */
  lemma {:induction false} SidesCrossed(pts: seq<Pt>, link: map<nat, nat>, r: nat, q: seq<nat>, p: seq<nat>, i: nat)
    requires InRaster(pts) && IsLoop(pts, link, r, q, p) && !TurnsOver(pts, link, r) && i < |q| == |p|
    ensures q[i] < p[Opposite(q, i)]
  {
    hide InRaster;
    LoopLines(pts, link, r, q, p);
    if i > 0 {
      var j := Opposite(q, i);
      SidesCrossed(pts, link, r, q, p, i - 1);
      OppositeLine(pts, link, q, p, i - 1);
      assert LeftStep(pts, link, p[j], p[j + 1]) && RightStep(pts, link, q[i - 1], q[i]);
      RightStaysDown(pts, link, q[i - 1], q[i], p[j + 1], p[j]);
    }
  }

  /** A contour from a run with nothing above to a run with nothing below, and back. */
  ghost predicate IsOuter(pts: seq<Pt>, link: map<nat, nat>, t: nat, q: seq<nat>, p: seq<nat>) {
    IsLoop(pts, link, t, q, p) && TurnsOver(pts, link, t) && TurnsBack(pts, link, q[|q| - 1])
  }

  lemma OuterOf(pts: seq<Pt>, link: map<nat, nat>, t: nat, q: seq<nat>, p: seq<nat>)
    requires InRaster(pts) && IsLoop(pts, link, t, q, p) && TurnsOver(pts, link, t)
    ensures IsOuter(pts, link, t, q, p)
  {
    LoopLines(pts, link, t, q, p);
    SidesOrdered(pts, link, t, q, p, |q| - 1);
  }

  /** Run x lies between the sides of the contour. */
  ghost predicate Inside(pts: seq<Pt>, q: seq<nat>, p: seq<nat>, x: nat)
    requires |q| == |p| > 0 && 2 * q[0] < |pts| && 2 * x < |pts|
  {
    var i := LineOf(pts, x) - LineOf(pts, q[0]);
    0 <= i < |q| && p[Opposite(q, i)] <= x <= q[i]
  }

  lemma InsideDown(pts: seq<Pt>, link: map<nat, nat>, t: nat, q: seq<nat>, p: seq<nat>, x: nat, z: nat)
    requires InRaster(pts) && IsOuter(pts, link, t, q, p) && |q| == |p| && 2 * q[0] < |pts| && Above(pts, x, z)
    requires Inside(pts, q, p, x)
    ensures Inside(pts, q, p, z)
  {
    hide InRaster;
    LoopLines(pts, link, t, q, p);
    var i := LineOf(pts, x) - LineOf(pts, q[0]);
    var j := Opposite(q, i);
    if i < |q| - 1 {
      OppositeLine(pts, link, q, p, i + 1);
      DescentLine(pts, link, q, i + 1);
      assert LeftStep(pts, link, p[j - 1], p[j]) && RightStep(pts, link, q[i], q[i + 1]);
      if z > q[i + 1] {
        RightStaysUp(pts, link, q[i], q[i + 1], x, z);
      } else if z < p[j - 1] {
        LeftStaysUp(pts, link, p[j - 1], p[j], x, z);
      }
    }
  }

  lemma InsideUp(pts: seq<Pt>, link: map<nat, nat>, t: nat, q: seq<nat>, p: seq<nat>, x: nat, z: nat)
    requires InRaster(pts) && IsOuter(pts, link, t, q, p) && |q| == |p| && 2 * q[0] < |pts| && Above(pts, x, z)
    requires Inside(pts, q, p, z)
    ensures Inside(pts, q, p, x)
  {
    hide InRaster;
    LoopLines(pts, link, t, q, p);
    var i := LineOf(pts, z) - LineOf(pts, q[0]);
    var j := Opposite(q, i);
    if i > 0 {
      OppositeLine(pts, link, q, p, i - 1);
      DescentLine(pts, link, q, i - 1);
      assert LeftStep(pts, link, p[j], p[j + 1]) && RightStep(pts, link, q[i - 1], q[i]);
      if x > q[i - 1] {
        RightStaysDown(pts, link, q[i - 1], q[i], x, z);
      } else if x < p[j + 1] {
        LeftStaysDown(pts, link, p[j], p[j + 1], x, z);
      }
    }
  }

  /** The contour encloses the component of its run with nothing above. */
  lemma {:induction false} Encloses(pts: seq<Pt>, link: map<nat, nat>, t: nat, q: seq<nat>, p: seq<nat>, path: seq<nat>)
    requires InRaster(pts) && IsOuter(pts, link, t, q, p) && |q| == |p| && 2 * q[0] < |pts|
    requires IsPath(pts, path) && path[0] == t
    ensures 2 * path[|path| - 1] < |pts| && Inside(pts, q, p, path[|path| - 1])
    decreases |path|
  {
    hide InRaster;
    if |path| == 1 {
      LoopLines(pts, link, t, q, p);
    } else {
      var shorter, x, z := path[..|path| - 1], path[|path| - 2], path[|path| - 1];
      assert IsPath(pts, shorter);
      Encloses(pts, link, t, q, p, shorter);
      assert Touch(pts, x, z);
      hide IsOuter, Inside;
      if Above(pts, x, z) {
        InsideDown(pts, link, t, q, p, x, z);
      } else {
        TouchBack(pts, x, z);
        InsideUp(pts, link, t, q, p, z, x);
      }
    }
  }

  /** No run of the component lies above its turn or below where it turns back, and none
      beside them. */
  lemma OuterBounds(pts: seq<Pt>, link: map<nat, nat>, t: nat, q: seq<nat>, p: seq<nat>, x: nat)
    requires InRaster(pts) && IsOuter(pts, link, t, q, p) && Connected(pts, t, x)
    ensures 2 * x < |pts| && 2 * t < |pts| && 2 * q[|q| - 1] < |pts|
    ensures LineOf(pts, t) <= LineOf(pts, x) <= LineOf(pts, q[|q| - 1])
    ensures LineOf(pts, x) == LineOf(pts, t) ==> x == t
    ensures LineOf(pts, x) == LineOf(pts, q[|q| - 1]) ==> x == q[|q| - 1]
  {
    hide InRaster;
    LoopLines(pts, link, t, q, p);
    DescentLine(pts, link, q, |q| - 1);
    var path :| JoinedBy(pts, path, t, x);
    Encloses(pts, link, t, q, p, path);
  }

  /** The outer contour of a run with nothing above. */
  lemma OuterOfTop(pts: seq<Pt>, link: map<nat, nat>, w: seq<nat>, t: nat) returns (q: seq<nat>, p: seq<nat>)
    requires Linked(pts, link) && IsCycle(link, w) && OneTurn(pts, link, w) && IsTop(pts, t) && 2 * t in w
    ensures IsOuter(pts, link, t, q, p)
  {
    hide IsCycle, InRaster, OneTurn;
    assert RunLinked(pts, link, t);
    q, p := LoopOf(pts, link, w, t);
    OuterOf(pts, link, t, q, p);
  }

  /** The outer contour of a run with nothing below. */
  lemma OuterOfBottom(pts: seq<Pt>, link: map<nat, nat>, w: seq<nat>, b: nat) returns (t: nat, q: seq<nat>, p: seq<nat>)
    requires Linked(pts, link) && IsCycle(link, w) && OneTurn(pts, link, w) && IsBottom(pts, b) && 2 * b + 1 in w
    ensures IsOuter(pts, link, t, q, p) && q[|q| - 1] == b
  {
    hide IsCycle, InRaster, OneTurn;
    assert RunLinked(pts, link, b);
    assert TurnsBack(pts, link, b);
    CycleClosed(link, w, 2 * b + 1);
    var a := Ascend(pts, link, b);
    OnAscent(pts, link, w, a, |a| - 1);
    t := a[|a| - 1];
    assert IsTurn(pts, link, t);
    q, p := LoopOf(pts, link, w, t);
    ContourIsLoop(pts, link, t, q, p, w, 2 * b + 1);
    var i :| 0 <= i < |q| && q[i] == b;
    assert i < |q| - 1 ==> RightStep(pts, link, q[i], q[i + 1]);
    LoopLines(pts, link, t, q, p);
    if !TurnsOver(pts, link, t) {
      SidesCrossed(pts, link, t, q, p, |q| - 1);
    } else {
      OuterOf(pts, link, t, q, p);
    }
  }

  lemma TopsEqual(pts: seq<Pt>, link: map<nat, nat>, a: nat, b: nat, q: seq<nat>, p: seq<nat>, q': seq<nat>,
                  p': seq<nat>)
    requires InRaster(pts) && Connected(pts, a, b) && IsOuter(pts, link, a, q, p) && IsOuter(pts, link, b, q', p')
    ensures a == b
  {
    hide InRaster, Connected, IsOuter;
    Joined(pts, a);
    JoinedBoth(pts, a, b, a);
    OuterBounds(pts, link, a, q, p, b);
    OuterBounds(pts, link, b, q', p', a);
  }

  lemma BottomsEqual(pts: seq<Pt>, link: map<nat, nat>, t: nat, q: seq<nat>, p: seq<nat>, t': nat, q': seq<nat>,
                     p': seq<nat>)
    requires InRaster(pts) && IsOuter(pts, link, t, q, p) && IsOuter(pts, link, t', q', p')
    requires Connected(pts, q[|q| - 1], q'[|q'| - 1])
    ensures q[|q| - 1] == q'[|q'| - 1]
  {
    hide InRaster, Connected;
    var a, b := q[|q| - 1], q'[|q'| - 1];
    DescentLine(pts, link, q, |q| - 1);
    DescentLine(pts, link, q', |q'| - 1);
    JoinedThrough(pts, t, a, b);
    Joined(pts, a);
    JoinedBoth(pts, a, b, a);
    JoinedThrough(pts, t', b, a);
    OuterBounds(pts, link, t, q, p, b);
    OuterBounds(pts, link, t', q', p', a);
  }

  // ----- The rule of the links, run by run -----

  /** Run r is run i of line y. */
  ghost predicate At(lines: seq<Line>, r: nat, y: nat, i: nat) {
    y < |lines| && i < lines[y].count && r == lines[y].first + i
  }

  lemma {:induction false} FindAt(lines: seq<Line>, n: nat, r: nat) returns (y: nat, i: nat)
    requires Tiles(lines, n) && 2 * r + 1 < n
    ensures At(lines, r, y, i)
    decreases |lines|
  {
    var last := lines[|lines| - 1];
    if r >= last.first {
      y, i := |lines| - 1, r - last.first;
    } else {
      assert |lines| > 1;
      var shorter := lines[..|lines| - 1];
      assert lines[|lines| - 2 + 1].first == End(lines[|lines| - 2]);
      y, i := FindAt(shorter, 2 * End(shorter[|shorter| - 1]), r);
    }
  }

  lemma {:induction false} FirstsGrow(lines: seq<Line>, n: nat, y: nat, z: nat)
    requires Tiles(lines, n) && y < z < |lines|
    ensures End(lines[y]) <= lines[z].first
    decreases z
  {
    assert lines[z - 1 + 1].first == End(lines[z - 1]);
    if y < z - 1 {
      FirstsGrow(lines, n, y, z - 1);
    }
  }

  lemma AtLine(pts: seq<Pt>, lines: seq<Line>, img: seq<seq<int>>, r: nat, y: nat, i: nat)
    requires AllLines(pts, lines, img) && At(lines, r, y, i)
    ensures 2 * r + 1 < |pts| && LineOf(pts, r) == y && IsLine(pts, lines[y], y) && pts[2 * r].x <= pts[2 * r + 1].x
  {
    assert IsRun(pts, lines[y], i, y);
  }

  lemma RasterOf(pts: seq<Pt>, lines: seq<Line>, img: seq<seq<int>>)
    requires AllLines(pts, lines, img) && Tiles(lines, |pts|)
    ensures InRaster(pts)
  {
    hide AllLines, Tiles, IsLine;
    assert |pts| % 2 == 0 by {
      EvenlyTiled(lines, |pts|);
    }
    forall r: nat | 2 * r + 1 < |pts|
      ensures pts[2 * r].x <= pts[2 * r + 1].x
    {
      var y, i := FindAt(lines, |pts|, r);
      AtLine(pts, lines, img, r, y, i);
    }
    forall a: nat, b: nat | a < b && 2 * b + 1 < |pts|
      ensures Precedes(pts, a, b)
    {
      var y, i := FindAt(lines, |pts|, a);
      var z, j := FindAt(lines, |pts|, b);
      AtLine(pts, lines, img, a, y, i);
      AtLine(pts, lines, img, b, z, j);
      if z < y {
        FirstsGrow(lines, |pts|, z, y);
      } else if y == z {
        InOrder(pts, lines[y], y, i, j);
      }
    }
  }

  lemma EvenlyTiled(lines: seq<Line>, n: nat)
    requires Tiles(lines, n)
    ensures n % 2 == 0
  {
  }

  lemma InOrder(pts: seq<Pt>, l: Line, y: int, i: nat, j: nat)
    requires IsLine(pts, l, y) && i < j < l.count
    ensures pts[2 * (l.first + i) + 1].x + 1 < pts[2 * (l.first + j)].x
  {
    assert pts[Right(l, i)].x + 1 < pts[Left(l, j)].x;
  }

  /** Two lines one below the other. */
  ghost predicate Stacked(pts: seq<Pt>, lines: seq<Line>, img: seq<seq<int>>) {
    AllLines(pts, lines, img) && Tiles(lines, |pts|)
  }

  /** Meeting in the merge is meeting in the image. */
  lemma MeetIsAbove(pts: seq<Pt>, lines: seq<Line>, img: seq<seq<int>>, y: nat, k: nat, n: nat)
    requires Stacked(pts, lines, img) && 0 < y < |lines| && k < lines[y - 1].count && n < lines[y].count
    ensures Meet(pts, lines[y - 1], lines[y], k, n) <==> Above(pts, lines[y - 1].first + k, lines[y].first + n)
  {
    hide AllLines, IsLine, Tiles;
    AtLine(pts, lines, img, lines[y - 1].first + k, y - 1, k);
    AtLine(pts, lines, img, lines[y].first + n, y, n);
  }

  /** The runs above a run of line y are runs of the line before. */
  lemma AboveIsMeet(pts: seq<Pt>, lines: seq<Line>, img: seq<seq<int>>, a: nat, b: nat, y: nat) returns (k: nat, n: nat)
    requires Stacked(pts, lines, img) && Above(pts, a, b) && LineOf(pts, b) == y
    ensures 0 < y < |lines| && At(lines, a, y - 1, k) && At(lines, b, y, n) && Meet(pts, lines[y - 1], lines[y], k, n)
  {
    hide AllLines, IsLine, Tiles, Meet;
    var z, i := FindAt(lines, |pts|, a);
    var x, j := FindAt(lines, |pts|, b);
    AtLine(pts, lines, img, a, z, i);
    AtLine(pts, lines, img, b, x, j);
    k, n := i, j;
    MeetIsAbove(pts, lines, img, y, k, n);
  }

  lemma LeftRuleAt(pts: seq<Pt>, link: map<nat, nat>, lines: seq<Line>, r: nat, y: nat, n: nat)
    requires AllRuled(pts, link, lines) && At(lines, r, y, n)
    ensures 2 * r in link && LeftRule(pts, LineAbove(lines, y), lines[y], n, link[2 * r])
  {
    hide RightRule, LeftRule;
    assert Left(lines[y], n) == 2 * r;
    assert Ruled(pts, link, LineAbove(lines, y), lines[y], lines[y].count, LineAbove(lines, y).count);
  }

  lemma LeftLinked(pts: seq<Pt>, link: map<nat, nat>, lines: seq<Line>, img: seq<seq<int>>, r: nat, y: nat, n: nat)
    requires Stacked(pts, lines, img) && AllRuled(pts, link, lines) && At(lines, r, y, n)
    ensures TurnsOver(pts, link, r) || TurnsInGap(pts, link, r) || exists a: nat :: LeftStep(pts, link, r, a)
  {
    var up, low := LineAbove(lines, y), lines[y];
    LeftRuleAt(pts, link, lines, r, y, n);
    hide AllLines, IsLine, Tiles, Meet, AllRuled;
    AtLine(pts, lines, img, r, y, n);
    if Separate(pts, up, low, 0, up.count, n, n + 1) && link[2 * r] == Right(low, n) {
      forall a: nat
        ensures !Above(pts, a, r)
      {
        if Above(pts, a, r) {
          var k, m := AboveIsMeet(pts, lines, img, a, r, y);
        }
      }
    } else {
      var k: nat :| LeftmostAbove(pts, up, low, n, k) &&
        link[2 * r] == if n > 0 && Meet(pts, up, low, k, n - 1) then Right(low, n - 1) else Left(up, k);
      JoinedUp(pts, link, lines, img, r, y, n, k);
    }
  }

  lemma JoinedUp(pts: seq<Pt>, link: map<nat, nat>, lines: seq<Line>, img: seq<seq<int>>, r: nat, y: nat, n: nat,
                 k: nat)
    requires Stacked(pts, lines, img) && At(lines, r, y, n) && LeftmostAbove(pts, LineAbove(lines, y), lines[y], n, k)
    requires var up, low := LineAbove(lines, y), lines[y];
      2 * r in link && link[2 * r] == if n > 0 && Meet(pts, up, low, k, n - 1) then Right(low, n - 1) else Left(up, k)
    ensures TurnsInGap(pts, link, r) || exists a: nat :: LeftStep(pts, link, r, a)
  {
    hide AllLines, IsLine, Tiles, Meet;
    var up, low := LineAbove(lines, y), lines[y];
    var a := up.first + k;
    AtLine(pts, lines, img, r, y, n);
    MeetIsAbove(pts, lines, img, y, k, n);
    if n > 0 {
      MeetIsAbove(pts, lines, img, y, k, n - 1);
    }
    if n > 0 && Meet(pts, up, low, k, n - 1) {
      assert Roof(pts, a, r);
    } else {
      if r > 0 && Above(pts, a, r - 1) {
        var k', n' := AboveIsMeet(pts, lines, img, a, r - 1, y);
      }
      forall x: nat | Above(pts, x, r)
        ensures a <= x
      {
        var k', n' := AboveIsMeet(pts, lines, img, x, r, y);
      }
      assert LeftStep(pts, link, r, a);
    }
  }

  function LineBelow(lines: seq<Line>, y: nat): Line
    requires y < |lines|
  {
    if y + 1 < |lines| then lines[y + 1] else Line(End(lines[y]), 0)
  }

  lemma RightRuleAt(pts: seq<Pt>, link: map<nat, nat>, lines: seq<Line>, r: nat, y: nat, k: nat)
    requires FollowsRule(pts, link, lines) && At(lines, r, y, k)
    ensures 2 * r + 1 in link && RightRule(pts, lines[y], LineBelow(lines, y), k, link[2 * r + 1])
  {
    hide Ruled, RightRule;
    var up, low := lines[y], LineBelow(lines, y);
    assert Ruled(pts, link, up, low, low.count, up.count) by {
      if y + 1 < |lines| {
        assert LineAbove(lines, y + 1) == lines[y];
        assert Ruled(pts, link, LineAbove(lines, y + 1), low, low.count, up.count);
      }
    }
    RuledRightAt(pts, link, up, low, low.count, up.count, k);
  }

  lemma RuledRightAt(pts: seq<Pt>, link: map<nat, nat>, up: Line, low: Line, m: nat, q: nat, k: nat)
    requires Ruled(pts, link, up, low, m, q) && k < q
    ensures Right(up, k) in link && RightRule(pts, up, low, k, link[Right(up, k)])
  {
    hide RightRule, LeftRule;
  }

  lemma RightLinked(pts: seq<Pt>, link: map<nat, nat>, lines: seq<Line>, img: seq<seq<int>>, r: nat, y: nat, k: nat)
    requires Stacked(pts, lines, img) && FollowsRule(pts, link, lines) && At(lines, r, y, k)
    ensures TurnsBack(pts, link, r) || TurnsBackInGap(pts, link, r) || exists b: nat :: RightStep(pts, link, r, b)
  {
    var up, low := lines[y], LineBelow(lines, y);
    RightRuleAt(pts, link, lines, r, y, k);
    hide AllLines, IsLine, Tiles, Meet, FollowsRule;
    AtLine(pts, lines, img, r, y, k);
    if Separate(pts, up, low, k, k + 1, 0, low.count) && link[2 * r + 1] == Left(up, k) {
      forall b: nat
        ensures !Above(pts, r, b)
      {
        if Above(pts, r, b) {
          var i, n := AboveIsMeet(pts, lines, img, r, b, y + 1);
        }
      }
    } else {
      var n: nat :| RightmostBelow(pts, up, low, k, n) &&
        link[2 * r + 1] == if k + 1 < up.count && Meet(pts, up, low, k + 1, n) then Left(up, k + 1) else Right(low, n);
      JoinedDown(pts, link, lines, img, r, y, k, n);
    }
  }

  lemma JoinedDown(pts: seq<Pt>, link: map<nat, nat>, lines: seq<Line>, img: seq<seq<int>>, r: nat, y: nat, k: nat,
                   n: nat)
    requires Stacked(pts, lines, img) && At(lines, r, y, k) && RightmostBelow(pts, lines[y], LineBelow(lines, y), k, n)
    requires var up, low := lines[y], LineBelow(lines, y);
      && 2 * r + 1 in link
      && link[2 * r + 1] == if k + 1 < up.count && Meet(pts, up, low, k + 1, n) then Left(up, k + 1) else Right(low, n)
    ensures TurnsBackInGap(pts, link, r) || exists b: nat :: RightStep(pts, link, r, b)
  {
    hide AllLines, IsLine, Tiles, Meet;
    var up, low := lines[y], LineBelow(lines, y);
    var b := low.first + n;
    AtLine(pts, lines, img, r, y, k);
    MeetIsAbove(pts, lines, img, y + 1, k, n);
    if k + 1 < up.count {
      MeetIsAbove(pts, lines, img, y + 1, k + 1, n);
    }
    if k + 1 < up.count && Meet(pts, up, low, k + 1, n) {
      assert Floor(pts, r, b);
    } else {
      if Above(pts, r + 1, b) {
        var k', n' := AboveIsMeet(pts, lines, img, r + 1, b, y + 1);
      }
      forall x: nat | Above(pts, r, x)
        ensures x <= b
      {
        var k', n' := AboveIsMeet(pts, lines, img, r, x, y + 1);
      }
      assert RightStep(pts, link, r, b);
    }
  }

  lemma RuleIsLinked(pts: seq<Pt>, link: map<nat, nat>, lines: seq<Line>, img: seq<seq<int>>)
    requires Stacked(pts, lines, img) && FollowsRule(pts, link, lines)
    ensures Linked(pts, link)
  {
    RasterOf(pts, lines, img);
    hide AllLines, Tiles, AllRuled, InRaster, TurnsOver, TurnsInGap, TurnsBack, TurnsBackInGap, LeftStep, RightStep;
    forall r: nat | 2 * r + 1 < |pts|
      ensures RunLinked(pts, link, r)
    {
      var y, i := FindAt(lines, |pts|, r);
      LeftLinked(pts, link, lines, img, r, y, i);
      RightLinked(pts, link, lines, img, r, y, i);
    }
  }

  // ----- How many contours there are -----

  lemma StartsAreTurns(pts: seq<Pt>, link: map<nat, nat>, ext: seq<nat>, inn: seq<nat>, i: nat)
    requires Linked(pts, link) && Recorded(pts, link, ext, inn) && (forall j: nat :: j in link ==> j < |pts|)
    ensures i in ext + inn <==> IsLeft(i) && IsTurn(pts, link, Run(i))
  {
    RecordedStarts(pts, link, ext, inn, i);
    hide GoodEdge, NoRepeats;
    var r := Run(i);
    if i in ext + inn {
      assert RunLinked(pts, link, r);
    }
  }

  /** Outer starts turn over above their run, inner ones in a gap. */
  lemma StartsAreOf(pts: seq<Pt>, link: map<nat, nat>, ext: seq<nat>, inn: seq<nat>, r: nat)
    requires Linked(pts, link) && Recorded(pts, link, ext, inn) && (forall j: nat :: j in link ==> j < |pts|)
    ensures 2 * r in ext <==> TurnsOver(pts, link, r)
    ensures 2 * r in inn <==> TurnsInGap(pts, link, r)
  {
    assert |pts| % 2 == 0;
    hide GoodEdge, NoRepeats, InRaster;
    if 2 * r in link {
      assert RunLinked(pts, link, r);
    }
  }

  /** With single ends no contour holds two recorded first points. */
  lemma TwoStarts(pts: seq<Pt>, link: map<nat, nat>, contours: seq<seq<nat>>, ext: seq<nat>, inn: seq<nat>)
    requires Linked(pts, link) && Recorded(pts, link, ext, inn) && (forall j: nat :: j in link ==> j < |pts|)
    requires (forall c :: 0 <= c < |contours| ==> IsCycle(link, contours[c])) && SingleEnds(pts)
    ensures !HoldsTwo(contours, ext + inn)
  {
    hide IsCycle, Linked, SingleEnds;
    var done := ext + inn;
    forall c, a, b | 0 <= c < |contours| && 0 <= a < b < |done| && done[a] in contours[c]
      ensures done[b] !in contours[c]
    {
      assert done[a] in done && done[b] in done && done[a] != done[b];
      StartsAreTurns(pts, link, ext, inn, done[a]);
      StartsAreTurns(pts, link, ext, inn, done[b]);
      if done[b] in contours[c] {
        TurnsOnce(pts, link, contours[c], Run(done[a]), Run(done[b]));
      }
    }
  }

  lemma NoTwoStarts(pts: seq<Pt>, link: map<nat, nat>, contours: seq<seq<nat>>, ext: seq<nat>, inn: seq<nat>, c: nat)
    requires Linked(pts, link) && Recorded(pts, link, ext, inn) && (forall j: nat :: j in link ==> j < |pts|)
    requires c < |contours| && !HoldsTwo(contours, ext + inn)
    ensures OneTurn(pts, link, contours[c])
  {
    var done := ext + inn;
    hide Linked, Recorded, IsTurn;
    forall a: nat, b: nat | IsTurn(pts, link, a) && IsTurn(pts, link, b) && 2 * a in contours[c] && 2 * b in contours[c]
      ensures a == b
    {
      StartsAreTurns(pts, link, ext, inn, 2 * a);
      StartsAreTurns(pts, link, ext, inn, 2 * b);
      assert Run(2 * a) == a && Run(2 * b) == b;
      var i :| 0 <= i < |done| && done[i] == 2 * a;
      var j :| 0 <= j < |done| && done[j] == 2 * b;
      assert i == j || i < j || j < i;
    }
  }

  lemma TopsSingle(pts: seq<Pt>, link: map<nat, nat>, contours: seq<seq<nat>>, a: nat, b: nat)
    requires Linked(pts, link) && ExactlyOnce(contours, |pts|)
    requires forall c :: 0 <= c < |contours| ==> IsCycle(link, contours[c]) && OneTurn(pts, link, contours[c])
    requires IsTop(pts, a) && IsTop(pts, b) && Connected(pts, a, b)
    ensures a == b
  {
    hide IsCycle, OneTurn, RunLinked, InRaster, Connected, IsOuter;
    assert OnSome(contours, 2 * a) && OnSome(contours, 2 * b);
    var c :| 0 <= c < |contours| && 2 * a in contours[c];
    var d :| 0 <= d < |contours| && 2 * b in contours[d];
    var q, p := OuterOfTop(pts, link, contours[c], a);
    var q', p' := OuterOfTop(pts, link, contours[d], b);
    TopsEqual(pts, link, a, b, q, p, q', p');
  }

  lemma BottomsSingle(pts: seq<Pt>, link: map<nat, nat>, contours: seq<seq<nat>>, a: nat, b: nat)
    requires Linked(pts, link) && ExactlyOnce(contours, |pts|)
    requires forall c :: 0 <= c < |contours| ==> IsCycle(link, contours[c]) && OneTurn(pts, link, contours[c])
    requires IsBottom(pts, a) && IsBottom(pts, b) && Connected(pts, a, b)
    ensures a == b
  {
    hide IsCycle, OneTurn, RunLinked, InRaster, Connected;
    assert OnSome(contours, 2 * a + 1) && OnSome(contours, 2 * b + 1);
    var c :| 0 <= c < |contours| && 2 * a + 1 in contours[c];
    var d :| 0 <= d < |contours| && 2 * b + 1 in contours[d];
    var t, q, p := OuterOfBottom(pts, link, contours[c], a);
    var t', q', p' := OuterOfBottom(pts, link, contours[d], b);
    hide IsOuter;
    BottomsEqual(pts, link, t, q, p, t', q', p');
  }

  /** For every image: some contour holds two recorded first points exactly if some component
      has two runs with nothing above, or two with nothing below. */
  lemma CountExact(pts: seq<Pt>, link: map<nat, nat>, contours: seq<seq<nat>>, ext: seq<nat>, inn: seq<nat>)
    requires Linked(pts, link) && Recorded(pts, link, ext, inn) && ExactlyOnce(contours, |pts|)
    requires (forall j: nat :: j in link ==> j < |pts|) && forall c :: 0 <= c < |contours| ==>
             IsCycle(link, contours[c])
    ensures HoldsTwo(contours, ext + inn) <==> !SingleEnds(pts)
  {
    hide Linked, Recorded, ExactlyOnce, IsCycle, OneTurn, HoldsTwo, IsTop, IsBottom, Connected;
    if SingleEnds(pts) {
      TwoStarts(pts, link, contours, ext, inn);
    } else if !HoldsTwo(contours, ext + inn) {
      forall c | 0 <= c < |contours|
        ensures OneTurn(pts, link, contours[c])
      {
        NoTwoStarts(pts, link, contours, ext, inn, c);
      }
      forall a: nat, b: nat | IsTop(pts, a) && IsTop(pts, b) && Connected(pts, a, b)
        ensures a == b
      {
        TopsSingle(pts, link, contours, a, b);
      }
      forall a: nat, b: nat | IsBottom(pts, a) && IsBottom(pts, b) && Connected(pts, a, b)
        ensures a == b
      {
        BottomsSingle(pts, link, contours, a, b);
      }
    }
  }

  // ----- Which contours are outer ones -----

  /** The contour runs past run r in its line, on both sides: at the left end of a run no
      further right, and at the right end of a run no further left. */
  ghost predicate RunsAround(pts: seq<Pt>, w: seq<nat>, r: nat) {
    2 * r < |pts| && exists a: nat, b: nat :: BesideRun(pts, w, r, a, b)
  }

  ghost predicate BesideRun(pts: seq<Pt>, w: seq<nat>, r: nat, a: nat, b: nat) {
    && a <= r <= b && 2 * r < |pts| && 2 * b + 1 < |pts| && 2 * a in w && 2 * b + 1 in w
    && LineOf(pts, a) == LineOf(pts, r) == LineOf(pts, b)
  }

  /** The contour turns over above run t, which has nothing above it, and runs around all runs
      of the component of t. */
  ghost predicate EnclosesFrom(pts: seq<Pt>, w: seq<nat>, t: nat) {
    IsTop(pts, t) && 2 * t in w && forall r: nat :: Connected(pts, t, r) ==> RunsAround(pts, w, r)
  }

  /** The contour is the enclosing one of the component of run r. */
  ghost predicate Encloser(pts: seq<Pt>, w: seq<nat>, r: nat) {
    exists t: nat :: Connected(pts, t, r) && EnclosesFrom(pts, w, t)
  }

  /** All turns of the contour lie in gaps, and none above a run. */
  ghost predicate InGap(pts: seq<Pt>, link: map<nat, nat>, w: seq<nat>) {
    && (exists r: nat :: TurnsInGap(pts, link, r) && 2 * r in w)
    && (forall r: nat :: 2 * r in w ==> !TurnsOver(pts, link, r) && !IsTop(pts, r))
  }

  lemma RunsAroundRun(pts: seq<Pt>, link: map<nat, nat>, w: seq<nat>, t: nat, q: seq<nat>, p: seq<nat>, r: nat)
    requires InRaster(pts) && IsOuter(pts, link, t, q, p) && IsCycle(link, w) && 2 * t in w && Connected(pts, t, r)
    ensures RunsAround(pts, w, r)
  {
    hide InRaster, IsCycle;
    LoopLines(pts, link, t, q, p);
    CycleClosed(link, w, 2 * t);
    var path :| JoinedBy(pts, path, t, r);
    Encloses(pts, link, t, q, p, path);
    var i := LineOf(pts, r) - LineOf(pts, q[0]);
    var j := Opposite(q, i);
    OppositeLine(pts, link, q, p, i);
    DescentLine(pts, link, q, i);
    assert 2 * q[|q| - 1] + 1 in w by {
      OnDescent(pts, link, w, q, |q| - 1);
    }
    CycleClosed(link, w, 2 * q[|q| - 1] + 1);
    OnDescent(pts, link, w, q, i);
    OnAscent(pts, link, w, p, j);
    assert BesideRun(pts, w, r, p[j], q[i]);
  }

  lemma EnclosesComponent(pts: seq<Pt>, link: map<nat, nat>, w: seq<nat>, t: nat)
    requires Linked(pts, link) && IsCycle(link, w) && OneTurn(pts, link, w) && TurnsOver(pts, link, t) && 2 * t in w
    ensures EnclosesFrom(pts, w, t)
  {
    var q, p := OuterOfTop(pts, link, w, t);
    hide InRaster, IsCycle, Connected, RunsAround, IsOuter, RunLinked;
    forall r: nat | Connected(pts, t, r)
      ensures RunsAround(pts, w, r)
    {
      RunsAroundRun(pts, link, w, t, q, p, r);
    }
  }

  /** If every component has single ends, the first contours are the enclosing ones, one for
      each component, and the others lie in gaps. */
  ghost predicate OuterFirst(pts: seq<Pt>, link: map<nat, nat>, contours: seq<seq<nat>>, outer: nat) {
    && outer <= |contours|
    && (forall c :: 0 <= c < outer ==> EnclosesSome(pts, contours[c]))
    && (forall c :: outer <= c < |contours| ==> InGap(pts, link, contours[c]))
    && (forall r: nat :: 2 * r < |pts| ==> OneEncloser(pts, contours[..outer], r))
  }

  ghost predicate EnclosesSome(pts: seq<Pt>, w: seq<nat>) {
    exists t: nat :: EnclosesFrom(pts, w, t)
  }

  /** Exactly one of the contours is the enclosing one of the component of run r. */
  ghost predicate OneEncloser(pts: seq<Pt>, outers: seq<seq<nat>>, r: nat) {
    exists c :: 0 <= c < |outers| && Encloser(pts, outers[c], r) && NoOther(pts, outers, r, c)
  }

  ghost predicate NoOther(pts: seq<Pt>, outers: seq<seq<nat>>, r: nat, c: int) {
    forall d :: 0 <= d < |outers| && Encloser(pts, outers[d], r) ==> d == c
  }

  lemma EncloserOf(pts: seq<Pt>, link: map<nat, nat>, contours: seq<seq<nat>>, outer: nat, ext: seq<nat>,
                   inn: seq<nat>, r: nat)
    returns (c: nat)
    requires Linked(pts, link) && Recorded(pts, link, ext, inn) && ExactlyOnce(contours, |pts|) && SingleEnds(pts)
    requires (forall j: nat :: j in link ==> j < |pts|) && forall d :: 0 <= d < |contours| ==>
             IsCycle(link, contours[d])
    requires outer <= |contours| && forall d, i :: outer <= d < |contours| && i in contours[d] ==> i !in ext
    requires 2 * r + 1 < |pts|
    ensures c < outer && Encloser(pts, contours[c], r)
  {
    Joined(pts, r);
    var t := Climb(pts, r, r);
    hide InRaster, IsCycle, Recorded, SingleEnds;
    assert RunLinked(pts, link, t);
    assert OnSome(contours, 2 * t);
    c :| 0 <= c < |contours| && 2 * t in contours[c];
    assert TurnsOver(pts, link, t) by {
      TopTurns(pts, link, t);
    }
    StartsAreOf(pts, link, ext, inn, t);
    hide ExactlyOnce, RunLinked;
    SingleTurn(pts, link, contours[c]);
    EnclosesComponent(pts, link, contours[c], t);
    ConnectedBack(pts, r, t);
  }

  lemma TopTurns(pts: seq<Pt>, link: map<nat, nat>, t: nat)
    requires RunLinked(pts, link, t) && IsTop(pts, t)
    ensures TurnsOver(pts, link, t)
  {
  }

  lemma ConnectedBack(pts: seq<Pt>, a: nat, b: nat)
    requires Connected(pts, a, b)
    ensures Connected(pts, b, a)
  {
    Joined(pts, a);
    JoinedBoth(pts, a, b, a);
  }

  lemma SingleTurn(pts: seq<Pt>, link: map<nat, nat>, w: seq<nat>)
    requires Linked(pts, link) && SingleEnds(pts) && IsCycle(link, w)
    ensures OneTurn(pts, link, w)
  {
    hide Linked, SingleEnds, IsCycle, IsTurn;
    forall a: nat, b: nat | IsTurn(pts, link, a) && IsTurn(pts, link, b) && 2 * a in w && 2 * b in w
      ensures a == b
    {
      TurnsOnce(pts, link, w, a, b);
    }
  }

  lemma SameEncloser(pts: seq<Pt>, contours: seq<seq<nat>>, c: nat, d: nat, r: nat)
    requires SingleEnds(pts) && ExactlyOnce(contours, |pts|) && c < |contours| && d < |contours|
    requires Encloser(pts, contours[c], r) && Encloser(pts, contours[d], r)
    ensures c == d
  {
    hide Connected, RunsAround;
    var t: nat :| Connected(pts, t, r) && EnclosesFrom(pts, contours[c], t);
    var u: nat :| Connected(pts, u, r) && EnclosesFrom(pts, contours[d], u);
    ConnectedBack(pts, u, r);
    JoinedThrough(pts, t, r, u);
    assert t == u;
    assert c == d || c < d || d < c;
  }

  lemma OthersInGaps(pts: seq<Pt>, link: map<nat, nat>, ext: seq<nat>, inn: seq<nat>, w: seq<nat>)
    requires Linked(pts, link) && Recorded(pts, link, ext, inn) && IsCycle(link, w)
    requires (forall j: nat :: j in link ==> j < |pts|) && w[0] in inn && forall i :: i in w ==> i !in ext
    ensures InGap(pts, link, w)
  {
    assert |w| > 0;
    hide IsCycle, InRaster;
    assert IsLeft(w[0]) && w[0] in w by {
      hide GoodEdge, NoRepeats;
    }
    hide Recorded;
    StartsAreOf(pts, link, ext, inn, Run(w[0]));
    forall r: nat | 2 * r in w
      ensures !TurnsOver(pts, link, r) && !IsTop(pts, r)
    {
      StartsAreOf(pts, link, ext, inn, r);
      if IsTop(pts, r) {
        assert RunLinked(pts, link, r);
        TopTurns(pts, link, r);
      }
    }
  }

  lemma OuterComeFirst(pts: seq<Pt>, link: map<nat, nat>, contours: seq<seq<nat>>, outer: nat, ext: seq<nat>,
                       inn: seq<nat>)
    requires Linked(pts, link) && Recorded(pts, link, ext, inn) && ExactlyOnce(contours, |pts|) && SingleEnds(pts)
    requires (forall j: nat :: j in link ==> j < |pts|) && forall d :: 0 <= d < |contours| ==>
             IsCycle(link, contours[d])
    requires outer <= |contours| && forall d, i :: outer <= d < |contours| && i in contours[d] ==> i !in ext
    requires forall d :: 0 <= d < outer ==> contours[d] != [] && contours[d][0] in ext
    requires forall d :: outer <= d < |contours| ==> contours[d] != [] && contours[d][0] in inn
    ensures OuterFirst(pts, link, contours, outer)
  {
    assert |pts| % 2 == 0;
    hide Linked, Recorded, ExactlyOnce, IsCycle, SingleEnds, Encloser, InGap, EnclosesFrom;
    forall c | 0 <= c < outer
      ensures EnclosesSome(pts, contours[c])
    {
      OuterEncloses(pts, link, contours[c], ext, inn);
    }
    forall c | outer <= c < |contours|
      ensures InGap(pts, link, contours[c])
    {
      OthersInGaps(pts, link, ext, inn, contours[c]);
    }
    hide EnclosesSome;
    forall r: nat | 2 * r < |pts|
      ensures OneEncloser(pts, contours[..outer], r)
    {
      var c := EncloserOf(pts, link, contours, outer, ext, inn, r);
      forall d | 0 <= d < outer && Encloser(pts, contours[..outer][d], r)
        ensures d == c
      {
        SameEncloser(pts, contours, c, d, r);
      }
      assert NoOther(pts, contours[..outer], r, c);
    }
  }

  /** The contour turns over above a run that has nothing above it. */
  ghost predicate GoesOverTop(pts: seq<Pt>, link: map<nat, nat>, w: seq<nat>) {
    exists t: nat :: 2 * t in w && IsTop(pts, t) && TurnsOver(pts, link, t)
  }

  /** For every image: an outer start lies over a top, and what starts as an inner contour has
      no top and a turn in a gap. */
  lemma OuterOrInner(pts: seq<Pt>, link: map<nat, nat>, w: seq<nat>, ext: seq<nat>, inn: seq<nat>)
    requires Linked(pts, link) && Recorded(pts, link, ext, inn) && IsCycle(link, w)
    requires (forall j: nat :: j in link ==> j < |pts|)
    requires w[0] in ext || (w[0] in inn && forall i :: i in w ==> i !in ext)
    ensures w[0] in ext ==> GoesOverTop(pts, link, w)
    ensures w[0] !in ext ==> InGap(pts, link, w)
  {
    assert |w| > 0;
    hide Linked, IsCycle;
    if w[0] in ext {
      assert IsLeft(w[0]) && w[0] in w by {
        hide GoodEdge, NoRepeats;
      }
      hide Recorded;
      StartsAreOf(pts, link, ext, inn, Run(w[0]));
      assert TurnsOver(pts, link, Run(w[0]));
    } else {
      OthersInGaps(pts, link, ext, inn, w);
    }
  }

  lemma OuterEncloses(pts: seq<Pt>, link: map<nat, nat>, w: seq<nat>, ext: seq<nat>, inn: seq<nat>)
    requires Linked(pts, link) && Recorded(pts, link, ext, inn) && SingleEnds(pts) && IsCycle(link, w)
    requires (forall j: nat :: j in link ==> j < |pts|) && w[0] in ext
    ensures EnclosesSome(pts, w)
  {
    assert |w| > 0;
    hide Linked, IsCycle, SingleEnds, EnclosesFrom;
    assert IsLeft(w[0]) && w[0] in w by {
      hide GoodEdge, NoRepeats;
    }
    hide Recorded;
    StartsAreOf(pts, link, ext, inn, Run(w[0]));
    SingleTurn(pts, link, w);
    EnclosesComponent(pts, link, w, Run(w[0]));
  }

  lemma LinkedNodes(link: map<nat, nat>, back: map<nat, nat>, n: nat)
    requires IsPermutation(link, back, n)
    ensures forall j: nat :: j in link ==> j < n
  {
  }

  lemma NoContours(link: map<nat, nat>, contours: seq<seq<nat>>, n: nat)
    requires ExactlyOnce(contours, n) && forall c :: 0 <= c < |contours| ==> IsCycle(link, contours[c])
    ensures contours == [] <==> n == 0
  {
    if contours != [] {
      assert contours[0][0] in contours[0];
    }
    if n > 0 {
      assert OnSome(contours, 0);
    }
  }

  /** An image on which the count is wrong: two peaks that join below.  Its two upper
      runs have nothing above them, the contour around both is one. */
  lemma TwoPeaks(pts: seq<Pt>, lines: seq<Line>)
    requires AllLines(pts, lines, [[1, 0, 1], [1, 1, 1]]) && |lines| == 2 && Tiles(lines, |pts|)
    ensures !SingleEnds(pts)
  {
    var img := [[1, 0, 1], [1, 1, 1]];
    var up, low := lines[0], lines[1];
    assert IsLine(pts, up, 0) && Covers(pts, up, img[0], 3) && IsLine(pts, low, 1) && Covers(pts, low, img[1], 3);
    hide AllLines, Tiles;
    var a := RunAt(pts, up, img[0], 0);
    var c := RunAt(pts, up, img[0], 2);
    var b := RunAt(pts, low, img[1], 0);
    var e := RunAt(pts, low, img[1], 1);
    var d := RunAt(pts, low, img[1], 2);
    assert img[0][1] == 0;
    assert !InRun(pts, up, a, 1) && !InRun(pts, up, c, 1);
    assert IsRun(pts, up, a, 0) && IsRun(pts, up, c, 0) && IsRun(pts, low, b, 1) && IsRun(pts, low, d, 1) &&
           IsRun(pts, low, e, 1);
    assert b == e && e == d;
    var r, s, u := up.first + a, up.first + c, low.first + b;
    Joined(pts, r);
    JoinedOver(pts, r, r, u, s);
    FirstLineIsTop(pts, lines, img, r, a);
    FirstLineIsTop(pts, lines, img, s, c);
  }

  lemma RunAt(pts: seq<Pt>, l: Line, row: seq<int>, x: nat) returns (i: nat)
    requires 2 * End(l) <= |pts| && Covers(pts, l, row, |row|) && x < |row| && row[x] != 0
    ensures i < l.count && InRun(pts, l, i, x)
  {
    i :| 0 <= i < l.count && InRun(pts, l, i, x);
  }

  lemma FirstLineIsTop(pts: seq<Pt>, lines: seq<Line>, img: seq<seq<int>>, r: nat, i: nat)
    requires Stacked(pts, lines, img) && At(lines, r, 0, i)
    ensures IsTop(pts, r)
  {
    AtLine(pts, lines, img, r, 0, i);
    hide AllLines, Tiles;
    forall a: nat
      ensures !Above(pts, a, r)
    {
      if Above(pts, a, r) {
        var k, n := AboveIsMeet(pts, lines, img, a, r, 0);
      }
    }
  }

  /** The contours of an image, as nodes and as points, outer ones first.  The returned count
      is the number of recorded first points, or -1 if there is no contour: the number of
      contours exactly if there is one and every component has single ends. */
  method FindContoursInInterval(img: seq<seq<int>>)
    returns (contours: seq<seq<nat>>, points: seq<seq<Pt>>, outer: nat, count: int,
             ghost pts: seq<Pt>, ghost lines: seq<Line>, ghost full: map<nat, nat>, ghost ext: seq<nat>,
                 ghost inn: seq<nat>)
    requires |img| > 0
    ensures |lines| == |img| && AllLines(pts, lines, img) && Tiles(lines, |pts|)
    ensures FollowsRule(pts, full, lines) && Recorded(pts, full, ext, inn)
    ensures ExactlyOnce(contours, |pts|)
    ensures forall c :: 0 <= c < |contours| ==> IsCycle(full, contours[c])
    ensures |points| == |contours| && forall c :: 0 <= c < |contours| ==> IsPolygon(pts, contours[c], points[c])
    ensures outer <= |contours|
    ensures forall c :: 0 <= c < outer ==> contours[c] != [] && contours[c][0] in ext
    ensures forall c :: outer <= c < |contours| ==> contours[c] != [] && contours[c][0] in inn
    ensures forall c, i :: outer <= c < |contours| && i in contours[c] ==> i !in ext
    ensures count == if contours == [] then -1 else |ext + inn|
    ensures count == |contours| <==> pts != [] && SingleEnds(pts)
    ensures forall c :: 0 <= c < outer ==> GoesOverTop(pts, full, contours[c])
    ensures forall c :: outer <= c < |contours| ==> InGap(pts, full, contours[c])
    ensures SingleEnds(pts) ==> OuterFirst(pts, full, contours, outer)
  {
    hide IsLine, Covers, Recorded, AllRead, Accounted, HoldsTwo, IsCycle, IsPermutation, FollowsRule;
    var linker := new RunLinker();
    lines := linker.LinkImage(img);
    pts, full, ext, inn := linker.pts, linker.link, linker.ext, linker.inn;
    LinkedNodes(full, linker.back, |pts|);
    contours, outer, count := linker.ReadAll();
    points := Polygons(linker.pts, contours);
    RuleIsLinked(pts, full, lines, img);
    hide AllLines, Tiles, SingleEnds, Linked, ExactlyOnce;
    CountExact(pts, full, contours, ext, inn);
    NoContours(full, contours, |pts|);
    forall c | 0 <= c < |contours|
      ensures if c < outer then GoesOverTop(pts, full, contours[c]) else InGap(pts, full, contours[c])
    {
      OuterOrInner(pts, full, contours[c], ext, inn);
    }
    if SingleEnds(pts) {
      OuterComeFirst(pts, full, contours, outer, ext, inn);
    }
    if contours == [] {
      count := -1;
    }
  }
}
