/** The border follower: it traces one border of a zero-framed image, marks the pixels it
    stands on, and writes the border down.

    The endless loop of the tracer ends because the step on border states is injective, so
    the walk can only close where it began. */
module BorderFollowing {
  import opened PixelGrid
  import opened ContourCodes

  // ----- The border through a state -----

  /** Follow the border from the end of a walk until it closes. */
  ghost function Trace(m: Mask, path: seq<State>): (r: seq<State>)
    requires |path| > 0 && IsWalk(m, path)
    ensures IsBorder(m, r) && r[0] == path[0] && path <= r
    decreases |States(m)| - |path|
  {
    var next := Next(m, path[|path| - 1]);
    if next == path[0] then path
    else
      WalkExtends(m, path);
      WalkIsShort(m, path + [next]);
      Trace(m, path + [next])
  }

  /** The closed border through state a, listed from a on. */
  ghost function Border(m: Mask, a: State): (r: seq<State>)
    requires IsState(m, a)
    ensures IsBorder(m, r) && r[0] == a
  {
    Trace(m, [a])
  }

  /** Every closed border that begins at a is the one the trace computes. */
  lemma BorderIsTheOnlyOne(m: Mask, path: seq<State>)
    requires IsBorder(m, path)
    ensures path == Border(m, path[0])
  {
    BorderUnique(m, path, Border(m, path[0]));
  }

  /** Direction of the zero neighbour from which a trace starts: east for a hole, west for an
      outer border. */
  function StartGap(isHole: bool): Dir {
    if isHole then 0 else 4
  }

  /** A pixel at which a trace may start. */
  ghost predicate IsStart(m: Mask, p: Pt, isHole: bool) {
    p in m && Nb(p, StartGap(isHole)) !in m
  }

  ghost predicate IsIsolated(m: Mask, p: Pt) {
    forall d: Dir :: Nb(p, d) !in m
  }

  /** First nonzero neighbour met when turning back from the zero neighbour in direction g. */
  ghost predicate IsFirstBack(m: Mask, p: Pt, g: Dir, s: Dir) {
    && Nb(p, s) in m
    && forall j :: 1 <= j < BackArc(g, s) ==> Nb(p, Back(g, j)) !in m
  }

  function BackArc(g: Dir, s: Dir): (k: int)
    ensures 1 <= k <= 8 && Back(g, k) == s
  {
    if s < g then g - s else g - s + 8
  }

  lemma FirstBackUnique(m: Mask, p: Pt, g: Dir, s: Dir, t: Dir)
    requires IsFirstBack(m, p, g, s) && IsFirstBack(m, p, g, t)
    ensures s == t
  {
    assert Back(g, BackArc(g, s)) == s && Back(g, BackArc(g, t)) == t;
    assert BackArc(g, s) >= BackArc(g, t);
    assert BackArc(g, t) >= BackArc(g, s);
  }

  ghost function FirstBack(m: Mask, p: Pt, g: Dir, k: int): (s: Dir)
    requires 1 <= k <= 8 && Nb(p, g) !in m && !IsIsolated(m, p)
    requires forall j :: 1 <= j < k ==> Nb(p, Back(g, j)) !in m
    ensures IsFirstBack(m, p, g, s)
    decreases 8 - k
  {
    if Nb(p, Back(g, k)) in m then Back(g, k)
    else
      NotAllZero(m, p, g, k);
      FirstBack(m, p, g, k + 1)
  }

  lemma NotAllZero(m: Mask, p: Pt, g: Dir, k: int)
    requires 1 <= k <= 8 && Nb(p, g) !in m && !IsIsolated(m, p)
    requires forall j :: 1 <= j <= k ==> Nb(p, Back(g, j)) !in m
    ensures k < 8
  {
    var d: Dir :| Nb(p, d) in m;
    assert Back(g, BackArc(g, d)) == d;
  }

  /** The contour of a start pixel: the whole border, or nothing if the pixel is isolated. */
  ghost function ContourOf(m: Mask, p: Pt, isHole: bool): (path: seq<State>)
    requires IsStart(m, p, isHole)
    ensures path == [] <==> IsIsolated(m, p)
    ensures path != [] ==> IsBorder(m, path) && path[0].p == p
    ensures path != [] ==> IsFirstBack(m, p, StartGap(isHole), path[0].s)
  {
    if IsIsolated(m, p) then [] else Border(m, State(p, FirstBack(m, p, StartGap(isHole), 1)))
  }

  /** The very first step of a trace sweeps over the zero neighbour it started from. */
  lemma StartSweepsGap(m: Mask, p: Pt, isHole: bool)
    requires IsStart(m, p, isHole) && !IsIsolated(m, p)
    ensures Sweeps(m, ContourOf(m, p, isHole)[0], StartGap(isHole))
  {
    FirstBackSweeps(m, p, StartGap(isHole), ContourOf(m, p, isHole)[0].s);
  }

  lemma FirstBackSweeps(m: Mask, p: Pt, g: Dir, s: Dir)
    requires p in m && Nb(p, g) !in m && IsFirstBack(m, p, g, s)
    ensures Sweeps(m, State(p, s), g)
  {
    var k := BackArc(g, s);
    assert Rot(s, k) == g && Arc(s, g) == k;
    forall j | 1 <= j <= k
      ensures Nb(p, Rot(s, j)) !in m
    {
      assert Rot(s, j) == if j == k then g else Back(g, k - j);
    }
  }

  // ----- What the trace writes -----

  /** The chain codes of a path. */
  ghost function Codes(m: Mask, path: seq<State>): (c: seq<Dir>)
    requires forall i :: 0 <= i < |path| ==> IsState(m, path[i])
    ensures |c| == |path| && forall i :: 0 <= i < |path| ==> c[i] == Code(m, path[i])
  {
    seq(|path|, i requires 0 <= i < |path| => Code(m, path[i]))
  }

  /** Chain codes walk from pixel to pixel along the path. */
  lemma {:induction false} CodesWalkPath(m: Mask, path: seq<State>, pt: Pt, i: nat)
    requires IsWalk(m, path) && i < |path|
    ensures End(pt, Codes(m, path)[..i]) == Moved(path[i].p, path[0].p, pt)
  {
    if i > 0 {
      hide IsState, Code;
      CodesWalkPath(m, path, pt, i - 1);
      assert Follows(m, path, i - 1);
      EndStep(pt, Codes(m, path), i - 1);
      NbMoves(path[i - 1].p, Code(m, path[i - 1]), path[0].p, pt);
    }
  }

  /** Pixel p after the move that takes p0 to pt. */
  function Moved(p: Pt, p0: Pt, pt: Pt): Pt {
    Pt(pt.x + p.x - p0.x, pt.y + p.y - p0.y)
  }

  lemma NbMoves(p: Pt, d: Dir, p0: Pt, pt: Pt)
    ensures Moved(Nb(p, d), p0, pt) == Nb(Moved(p, p0, pt), d)
  {
  }

  /** The points of a border are its pixels, moved by the offset, and its chain closes. */
  lemma BorderPoints(m: Mask, path: seq<State>, pt: Pt)
    requires IsBorder(m, path)
    ensures IsClosed(pt, Codes(m, path))
    ensures forall i :: 0 <= i < |path| ==> Points(pt, Codes(m, path))[i] == Moved(path[i].p, path[0].p, pt)
  {
    var c, n := Codes(m, path), |path|;
    forall i | 0 <= i < n
      ensures Points(pt, c)[i] == Moved(path[i].p, path[0].p, pt)
    {
      CodesWalkPath(m, path, pt, i);
      PointsPrefix(pt, c, i);
    }
    BorderReturns(m, path, pt);
  }

  lemma BorderReturns(m: Mask, path: seq<State>, pt: Pt)
    requires IsBorder(m, path)
    ensures End(pt, Codes(m, path)) == pt
  {
    hide IsState, Code;
    var c, n := Codes(m, path), |path| - 1;
    CodesWalkPath(m, path, pt, n);
    EndStep(pt, c, n);
    NbMoves(path[n].p, Code(m, path[n]), path[0].p, pt);
    assert c[..n + 1] == c;
  }

  /** The code before the first one, around the border, is opposite to the way in. */
  lemma LastCode(m: Mask, path: seq<State>)
    requires IsBorder(m, path)
    ensures Codes(m, path)[|path| - 1] == Opp(path[0].s)
  {
    NbOpp(path[|path| - 1].p, Code(m, path[|path| - 1]));
  }

  /** Decoding the chain of a border gives all its points, and every point can be recovered
      from the corner points alone. */
  lemma EncodingsAgree(m: Mask, path: seq<State>, pt: Pt)
    requires IsBorder(m, path)
    ensures var codes := Codes(m, path);
      && End(pt, codes) == pt
      && |Corners(codes, |codes|)| > 0
      && ExpandClosed(Simple(pt, codes)) == Rotated(Points(pt, codes), Corners(codes, |codes|)[0])
  {
    BorderPoints(m, path, pt);
    SimpleRoundTrip(pt, Codes(m, path));
  }

  // ----- What the trace marks -----

  /** The contour has a state at q whose arc sweeps over q's east neighbour. */
  ghost predicate SweepsEastOf(m: Mask, path: seq<State>, q: Pt) {
    exists i :: 0 <= i < |path| && IsState(m, path[i]) && path[i].p == q && Sweeps(m, path[i], 0)
  }

  ghost predicate Visits(path: seq<State>, q: Pt) {
    exists i :: 0 <= i < |path| && path[i].p == q
  }

  /** The value v of pixel q after the follower has stood at a. */
  ghost function MarkStep(m: Mask, a: State, q: Pt, v: int, nbd: int): int {
    if q != a.p || !IsState(m, a) then v
    else if Sweeps(m, a, 0) then nbd - 128
    else if v == 1 then nbd
    else v
  }

  /** The value of pixel q, v before, after the path has been traced with mark nbd. */
  ghost function Mark(m: Mask, path: seq<State>, q: Pt, v: int, nbd: int): int
    decreases |path|
  {
    if path == [] then v
    else MarkStep(m, path[|path| - 1], q, Mark(m, path[..|path| - 1], q, v, nbd), nbd)
  }

  /** The order of the steps does not matter: a pixel ends up negative exactly if some step
      of the path swept over its east neighbour, and otherwise carries the mark if the path
      was the first to visit it. */
  lemma {:induction false} MarkMeaning(m: Mask, path: seq<State>, q: Pt, v: int, nbd: int)
    requires forall i :: 0 <= i < |path| ==> IsState(m, path[i])
    requires 1 < nbd < 128
    ensures Mark(m, path, q, v, nbd)
         == if SweepsEastOf(m, path, q) then nbd - 128
            else if v == 1 && Visits(path, q) then nbd
            else v
    decreases |path|
  {
    if path != [] {
      var n := |path| - 1;
      var init := path[..n];
      MarkMeaning(m, init, q, v, nbd);
      assert forall i :: 0 <= i < n ==> init[i] == path[i];
      assert SweepsEastOf(m, path, q) <==> SweepsEastOf(m, init, q) || (path[n].p == q && Sweeps(m, path[n], 0));
      assert Visits(path, q) <==> Visits(init, q) || path[n].p == q;
    }
  }

  /** Marking never turns a zero pixel nonzero or a nonzero pixel zero. */
  lemma {:induction false} MarkKeepsZero(m: Mask, path: seq<State>, q: Pt, v: int, nbd: int)
    requires forall i :: 0 <= i < |path| ==> IsState(m, path[i])
    requires 1 < nbd < 128 && (v != 0 <==> q in m)
    ensures Mark(m, path, q, v, nbd) != 0 <==> v != 0
    decreases |path|
  {
    if path != [] {
      MarkKeepsZero(m, path[..|path| - 1], q, v, nbd);
    }
  }

  /** The value of pixel q after the contour that starts at p has been fetched. */
  ghost function MarkContour(m: Mask, p: Pt, isHole: bool, q: Pt, v: int, nbd: int): int
    requires IsStart(m, p, isHole)
  {
    if IsIsolated(m, p) then (if q == p then nbd - 128 else v)
    else Mark(m, ContourOf(m, p, isHole), q, v, nbd)
  }

  // ----- The image -----

  ghost function NonZero(img: array2<int>): Mask
    reads img
  {
    set x, y | 0 <= x < img.Length1 && 0 <= y < img.Length0 && img[y, x] != 0 :: Pt(x, y)
  }

  /** The frame of the image is zero, so every nonzero pixel has eight neighbours. */
  ghost predicate ZeroFrame(img: array2<int>)
    reads img
  {
    forall x, y :: 0 <= x < img.Length1 && 0 <= y < img.Length0 && img[y, x] != 0 ==>
      0 < x < img.Length1 - 1 && 0 < y < img.Length0 - 1
  }

  ghost predicate InImage(img: array2<int>, q: Pt) {
    0 <= q.x < img.Length1 && 0 <= q.y < img.Length0
  }

  lemma NeighbourInImage(img: array2<int>, p: Pt, d: Dir)
    requires ZeroFrame(img) && p in NonZero(img)
    ensures InImage(img, Nb(p, d))
    ensures Nb(p, d) in NonZero(img) <==> img[Nb(p, d).y, Nb(p, d).x] != 0
  {
  }

  datatype Contour = Contour(codes: seq<Dir>, points: seq<Pt>, rect: Rect)

  /** What is written for a contour whose chain from pt is codes. */
  ghost predicate IsRecord(c: Contour, pt: Pt, codes: seq<Dir>, approx: Approx) {
    match approx
    case ChainCode => c.codes == codes && c.points == []
    case ApproxNone => c.codes == [] && c.points == Points(pt, codes)
    case ApproxSimple => c.codes == [] && c.points == Simple(pt, codes)
  }

  /** The sequence writer and the running state of a trace: what has been written, the
      previous code, the current point, and the ranges of x and y. */
  datatype Writer = Writer(codes: seq<Dir>, points: seq<Pt>, prevS: Dir, pt: Pt, box: Box)

  datatype Box = Box(x0: int, x1: int, y0: int, y1: int)

  /** The points recorded before code n is written. */
  ghost function Recorded(approx: Approx, pts: seq<Pt>, codes: seq<Dir>, n: nat): seq<Pt>
    requires n <= |codes| == |pts|
  {
    match approx
    case ChainCode => []
    case ApproxNone => pts[..n]
    case ApproxSimple => Select(pts, Corners(codes, n))
  }

  lemma RecordedStep(approx: Approx, pts: seq<Pt>, codes: seq<Dir>, n: nat)
    requires n < |codes| == |pts|
    ensures Recorded(approx, pts, codes, n + 1) == Recorded(approx, pts, codes, n)
         + (if approx.ApproxNone? || (approx.ApproxSimple? && Turns(codes, n)) then [pts[n]] else [])
  {
    hide Select, Corners;
    SelectCorners(pts, codes, n);
    PrefixStep(pts, n);
  }

  /** The first n codes of a closed chain have been written. */
  ghost predicate Written(w: Writer, approx: Approx, pt0: Pt, codes: seq<Dir>, n: nat)
    requires n <= |codes|
  {
    var pts := Points(pt0, codes);
    && (n < |codes| ==> w.pt == pts[n] && w.prevS == PrevCode(codes, n))
    && w.codes == (if approx.ChainCode? then codes[..n] else [])
    && w.points == Recorded(approx, pts, codes, n)
  }

  /** The ranges hold the start and the corners before n, and points of the chain span them. */
  ghost predicate Covers(b: Box, pts: seq<Pt>, codes: seq<Dir>, n: nat)
    requires n <= |codes| == |pts| && |pts| > 0
  {
    && b.x0 <= pts[0].x <= b.x1 && b.y0 <= pts[0].y <= b.y1
    && (forall k :: 0 <= k < n && Turns(codes, k) ==> b.x0 <= pts[k].x <= b.x1 && b.y0 <= pts[k].y <= b.y1)
    && (exists k :: 0 <= k < |pts| && pts[k].x == b.x0)
    && (exists k :: 0 <= k < |pts| && pts[k].x == b.x1)
    && (exists k :: 0 <= k < |pts| && pts[k].y == b.y0)
    && (exists k :: 0 <= k < |pts| && pts[k].y == b.y1)
  }

  /** Take v into the range lo..hi; the upper end is looked at only if the lower one held. */
  method Widen(lo: int, hi: int, v: int) returns (lo1: int, hi1: int)
    requires lo <= hi
    ensures lo1 <= v <= hi1 && lo1 <= lo && hi <= hi1
    ensures (lo1 == lo || lo1 == v) && (hi1 == hi || hi1 == v)
  {
    lo1, hi1 := lo, hi;
    if v < lo {
      lo1 := v;
    } else if v > hi {
      hi1 := v;
    }
  }

  method StartWrite(s0: Dir, approx: Approx, pt0: Pt, ghost codes: seq<Dir>) returns (w: Writer)
    requires IsClosed(pt0, codes) && codes[|codes| - 1] == Opp(s0)
    ensures Written(w, approx, pt0, codes, 0) && Covers(w.box, Points(pt0, codes), codes, 0)
  {
    PointsPrefix(pt0, codes, 0);
    w := Writer([], [], Opp(s0), pt0, Box(pt0.x, pt0.x, pt0.y, pt0.y));
  }

  /** Take point n into the ranges if the direction changes there. */
  method UpdateBounds(b: Box, pt: Pt, turns: bool, ghost pts: seq<Pt>, ghost codes: seq<Dir>, ghost n: nat)
    returns (r: Box)
    requires n < |codes| == |pts| && Covers(b, pts, codes, n)
    requires pt == pts[n] && (turns <==> Turns(codes, n))
    ensures Covers(r, pts, codes, n + 1)
  {
    r := b;
    if turns {
      var x0, x1 := Widen(b.x0, b.x1, pt.x);
      var y0, y1 := Widen(b.y0, b.y1, pt.y);
      r := Box(x0, x1, y0, y1);
    }
  }

  /** Write one code: the code itself, or the current point if it is wanted; then move on. */
  method WriteCode(w: Writer, s: Dir, approx: Approx, ghost pt0: Pt, ghost codes: seq<Dir>, ghost n: nat)
    returns (r: Writer)
    requires n < |codes| && s == codes[n] && Written(w, approx, pt0, codes, n)
    requires Covers(w.box, Points(pt0, codes), codes, n)
    ensures Written(r, approx, pt0, codes, n + 1)
    ensures Covers(r.box, Points(pt0, codes), codes, n + 1)
  {
    var box := UpdateBounds(w.box, w.pt, s != w.prevS, Points(pt0, codes), codes, n);
    r := WriteElement(w, s, approx, box, pt0, codes, n);
  }

  method WriteElement(w: Writer, s: Dir, approx: Approx, box: Box, ghost pt0: Pt, ghost codes: seq<Dir>, ghost n: nat)
    returns (r: Writer)
    requires n < |codes| && s == codes[n] && Written(w, approx, pt0, codes, n)
    ensures Written(r, approx, pt0, codes, n + 1) && r.box == box
  {
    hide Points, Recorded, Nb, End;
    PointsStep(pt0, codes, n);
    RecordedStep(approx, Points(pt0, codes), codes, n);
    PrefixStep(codes, n);
    r := w.(prevS := s, pt := Nb(w.pt, s), box := box);
    if approx.ChainCode? {
      r := r.(codes := w.codes + [s]);
    } else if s != w.prevS || approx.ApproxNone? {
      r := r.(points := w.points + [w.pt]);
    }
  }

  /** Close the writer: the ranges that hold the corners hold every point. */
  method EndWrite(w: Writer, approx: Approx, ghost pt0: Pt, ghost codes: seq<Dir>) returns (c: Contour)
    requires IsClosed(pt0, codes) && Written(w, approx, pt0, codes, |codes|)
    requires Covers(w.box, Points(pt0, codes), codes, |codes|)
    ensures IsBoundingRect(c.rect, Points(pt0, codes)) && IsRecord(c, pt0, codes, approx)
  {
    ghost var pts := Points(pt0, codes);
    var b := w.box;
    assert codes[..|codes|] == codes && pts[..|codes|] == pts;
    PointsPrefix(pt0, codes, 0);
    CornersBoundAll(pt0, codes, b.x0, b.x1, b.y0, b.y1);
    c := Contour(w.codes, w.points, Rect(b.x0, b.y0, b.x1 - b.x0 + 1, b.y1 - b.y0 + 1));
  }

  /** The unsigned comparison of s - 1 with the start of the sweep tells exactly whether the
      sweep passed over the east neighbour. */
  lemma RightBoundTest(m: Mask, a: State)
    requires IsState(m, a)
    ensures 0 <= Code(m, a) - 1 < a.s <==> Sweeps(m, a, 0)
  {
  }

  /** Mark the pixel the follower stands on after its arc has been swept. */
  method MarkPixel(img: array2<int>, a: State, s: Dir, nbd: int)
    requires IsState(NonZero(img), a) && 1 < nbd < 128
    requires 0 <= s - 1 < a.s <==> Sweeps(NonZero(img), a, 0)
    modifies img
    ensures forall x, y :: 0 <= x < img.Length1 && 0 <= y < img.Length0 ==>
              img[y, x] == MarkStep(old(NonZero(img)), a, Pt(x, y), old(img[y, x]), nbd)
    ensures forall x, y :: 0 <= x < img.Length1 && 0 <= y < img.Length0 ==>
              (img[y, x] != 0 <==> old(img[y, x]) != 0)
    ensures NonZero(img) == old(NonZero(img))
  {
    var p := a.p;
    if 0 <= s - 1 < a.s {
      img[p.y, p.x] := nbd - 128;
    } else if img[p.y, p.x] == 1 {
      img[p.y, p.x] := nbd;
    }
  }

  ghost method Snapshot(img: array2<int>) returns (was: (int, int) -> int)
    ensures forall x, y :: 0 <= x < img.Length1 && 0 <= y < img.Length0 ==> was(x, y) == img[y, x]
  {
    var rows := seq(img.Length0, y requires 0 <= y < img.Length0 reads img =>
      seq(img.Length1, x requires 0 <= x < img.Length1 reads img => img[y, x]));
    was := (x, y) => if 0 <= y < |rows| && 0 <= x < |rows[y]| then rows[y][x] else 0;
  }

  /** What is recorded for the contour that starts at p0, with its first point at pt0. */
  ghost predicate Records(c: Contour, m: Mask, p0: Pt, isHole: bool, pt0: Pt, approx: Approx)
    requires IsStart(m, p0, isHole)
  {
    if IsIsolated(m, p0) then
      && IsBoundingRect(c.rect, [pt0])
      && c.codes == [] && c.points == (if approx.ChainCode? then [] else [pt0])
    else
      var codes := Codes(m, ContourOf(m, p0, isHole));
      && IsBoundingRect(c.rect, Points(pt0, codes))
      && IsRecord(c, pt0, codes, approx)
  }

  /** Trace the border that starts at p0, mark it with nbd, and record it with its first
      point at pt0. */
  method FetchContour(img: array2<int>, p0: Pt, pt0: Pt, isHole: bool, approx: Approx, nbd: int)
    returns (c: Contour)
    requires ZeroFrame(img) && IsStart(NonZero(img), p0, isHole)
    requires 1 < nbd < 128
    modifies img
    ensures NonZero(img) == old(NonZero(img)) && ZeroFrame(img)
    ensures forall x, y :: 0 <= x < img.Length1 && 0 <= y < img.Length0 ==>
              img[y, x] == MarkContour(old(NonZero(img)), p0, isHole, Pt(x, y), old(img[y, x]), nbd)
    ensures Records(c, old(NonZero(img)), p0, isHole, pt0, approx)
  {
    var s, found := FindWayIn(img, p0, StartGap(isHole));
    if !found {
      c := FetchIsolated(img, p0, pt0, approx, nbd);
    } else {
      ghost var m := NonZero(img);
      ghost var border := ContourOf(m, p0, isHole);
      FirstBackUnique(m, p0, StartGap(isHole), s, border[0].s);
      ghost var was := Snapshot(img);
      c := FetchBorder(img, p0, pt0, s, approx, nbd, was, m, border);
    }
  }

  /** A pixel without neighbours: it is marked on the right and recorded by itself. */
  method FetchIsolated(img: array2<int>, p0: Pt, pt0: Pt, approx: Approx, nbd: int) returns (c: Contour)
    requires ZeroFrame(img) && p0 in NonZero(img) && 1 < nbd < 128
    modifies img
    ensures NonZero(img) == old(NonZero(img)) && ZeroFrame(img)
    ensures forall x, y :: 0 <= x < img.Length1 && 0 <= y < img.Length0 ==>
              img[y, x] == if Pt(x, y) == p0 then nbd - 128 else old(img[y, x])
    ensures IsBoundingRect(c.rect, [pt0])
    ensures c.codes == [] && c.points == (if approx.ChainCode? then [] else [pt0])
  {
    ghost var m := NonZero(img);
    img[p0.y, p0.x] := nbd - 128;
    c := Contour([], if approx.ChainCode? then [] else [pt0], Rect(pt0.x, pt0.y, 1, 1));
    assert NonZero(img) == m;
    assert [pt0][0] == pt0;
  }

  method FetchBorder(img: array2<int>, p0: Pt, pt0: Pt, s0: Dir, approx: Approx, nbd: int,
                     ghost was: (int, int) -> int, ghost m: Mask, ghost border: seq<State>)
    returns (c: Contour)
    requires IsBorder(m, border) && border[0] == State(p0, s0) && 1 < nbd < 128
    requires NonZero(img) == m && ZeroFrame(img)
    requires forall x, y :: 0 <= x < img.Length1 && 0 <= y < img.Length0 ==> was(x, y) == img[y, x]
    modifies img
    ensures NonZero(img) == m && ZeroFrame(img)
    ensures forall x, y :: 0 <= x < img.Length1 && 0 <= y < img.Length0 ==>
              img[y, x] == Mark(m, border, Pt(x, y), was(x, y), nbd)
    ensures IsBoundingRect(c.rect, Points(pt0, Codes(m, border)))
    ensures IsRecord(c, pt0, Codes(m, border), approx)
  {
    BorderPoints(m, border, pt0);
    LastCode(m, border);
    c := FollowBorder(img, p0, pt0, s0, approx, nbd, was, m, border, Codes(m, border));
    WholePrefix(border);
  }

  /** The test "back at the first pixel, coming from the first way in" holds at the last
      state of the border and at no earlier one. */
  lemma ClosesOnlyAtEnd(m: Mask, border: seq<State>, n: nat)
    requires IsBorder(m, border) && n < |border|
    ensures var a, d := border[n], Code(m, border[n]);
      (Nb(a.p, d) == border[0].p && a.p == Nb(border[0].p, border[0].s)) <==> n == |border| - 1
    ensures n < |border| - 1 ==> border[n + 1] == State(Nb(border[n].p, Code(m, border[n])), Opp(Code(m, border[n])))
  {
    var a, d := border[n], Code(m, border[n]);
    NbOpp(a.p, d);
    if n < |border| - 1 {
      assert Follows(m, border, n);
      assert border[n + 1] != border[0];
    }
    if Nb(a.p, d) == border[0].p && a.p == Nb(border[0].p, border[0].s) {
      NbInjective(border[0].p, border[0].s, Opp(d));
    }
  }

  lemma NbInjective(p: Pt, s: Dir, t: Dir)
    requires Nb(p, s) == Nb(p, t)
    ensures s == t
  {
  }

  /** The image after the first n states of the border have been marked. */
  ghost predicate MarkedUpTo(img: array2<int>, was: (int, int) -> int, m: Mask, border: seq<State>, n: nat, nbd: int)
    requires n <= |border|
    reads img
  {
    && NonZero(img) == m && ZeroFrame(img)
    && forall x, y :: 0 <= x < img.Length1 && 0 <= y < img.Length0 ==>
         img[y, x] == Mark(m, border[..n], Pt(x, y), was(x, y), nbd)
  }

  /** One turn of the endless loop: find the way out, mark the pixel, look whether the
      border has closed. */
  method StepBorder(img: array2<int>, p3: Pt, sEnd: Dir, nbd: int,
                    ghost was: (int, int) -> int, ghost m: Mask, ghost border: seq<State>, ghost n: nat)
    returns (s: Dir, p4: Pt)
    requires IsBorder(m, border) && n < |border| && border[n] == State(p3, sEnd) && 1 < nbd < 128
    requires MarkedUpTo(img, was, m, border, n, nbd)
    modifies img
    ensures MarkedUpTo(img, was, m, border, n + 1, nbd)
    ensures s == Code(m, border[n]) && p4 == Nb(p3, s)
    ensures (p4 == border[0].p && p3 == Nb(border[0].p, border[0].s)) <==> n == |border| - 1
    ensures n < |border| - 1 ==> border[n + 1] == State(p4, Opp(s))
  {
    s, p4 := FindWayOut(img, p3, sEnd);
    MarkNext(img, State(p3, sEnd), s, nbd, was, m, border, n);
    hide MarkedUpTo, IsBorder;
    ClosesOnlyAtEnd(m, border, n);
  }

  /** Mark the pixel of state n of the border. */
  method MarkNext(img: array2<int>, a: State, s: Dir, nbd: int,
                  ghost was: (int, int) -> int, ghost m: Mask, ghost border: seq<State>, ghost n: nat)
    requires IsBorder(m, border) && n < |border| && border[n] == a && s == Code(m, a) && 1 < nbd < 128
    requires MarkedUpTo(img, was, m, border, n, nbd)
    modifies img
    ensures MarkedUpTo(img, was, m, border, n + 1, nbd)
  {
    hide Code, Nb, MarkStep, Sweeps, Next;
    RightBoundTest(m, a);
    MarkPixel(img, a, s, nbd);
    assert border[..n + 1][..n] == border[..n];
  }

  /** The endless loop of the tracer, entered at p0 with the way in found. */
  method FollowBorder(img: array2<int>, p0: Pt, pt0: Pt, s0: Dir, approx: Approx, nbd: int,
                      ghost was: (int, int) -> int, ghost m: Mask, ghost border: seq<State>, ghost codes: seq<Dir>)
    returns (c: Contour)
    requires IsBorder(m, border) && border[0] == State(p0, s0) && codes == Codes(m, border)
    requires IsClosed(pt0, codes) && codes[|codes| - 1] == Opp(s0)
    requires MarkedUpTo(img, was, m, border, 0, nbd) && 1 < nbd < 128
    modifies img
    ensures MarkedUpTo(img, was, m, border, |border|, nbd)
    ensures IsBoundingRect(c.rect, Points(pt0, codes)) && IsRecord(c, pt0, codes, approx)
  {
    var p1 := Nb(p0, s0);
    var p3, s := p0, s0;
    var w := StartWrite(s0, approx, pt0, codes);
    ghost var n := 0;
    while true
      invariant n < |border| && border[n] == State(p3, s)
      invariant MarkedUpTo(img, was, m, border, n, nbd)
      invariant Written(w, approx, pt0, codes, n) && Covers(w.box, Points(pt0, codes), codes, n)
      decreases |border| - n
    {
      var p4: Pt;
      s, p4 := StepBorder(img, p3, s, nbd, was, m, border, n);
      w := WriteCode(w, s, approx, pt0, codes, n);
      n := n + 1;
      if p4 == p0 && p3 == p1 {
        break;
      }
      p3 := p4;
      s := Opp(s);
    }
    c := EndWrite(w, approx, pt0, codes);
  }

  /** Turn clockwise from the gap g until a nonzero neighbour or g itself is met. */
  method FindWayIn(img: array2<int>, p: Pt, g: Dir) returns (s: Dir, found: bool)
    requires ZeroFrame(img) && p in NonZero(img) && Nb(p, g) !in NonZero(img)
    ensures found <==> !IsIsolated(NonZero(img), p)
    ensures found ==> IsFirstBack(NonZero(img), p, g, s)
  {
    ghost var m := NonZero(img);
    s := g;
    for k := 1 to 9
      invariant s == Back(g, k - 1) && k <= 8
      invariant forall j :: 1 <= j < k ==> Nb(p, Back(g, j)) !in m
    {
      s := (s - 1) % 8;
      assert s == Back(g, k);
      var q := Nb(p, s);
      if img[q.y, q.x] != 0 {
        assert BackArc(g, s) == k;
        assert q in m;
        return s, true;
      }
      if s == g {
        forall d: Dir
          ensures Nb(p, d) !in m
        {
          assert Back(g, BackArc(g, d)) == d;
        }
        return s, false;
      }
    }
  }

  /** Turn counter-clockwise from s until a nonzero neighbour is met.  The raw index runs
      through the doubled offset table and stays within its sixteen entries. */
  method FindWayOut(img: array2<int>, p: Pt, s: Dir) returns (d: Dir, q: Pt)
    requires ZeroFrame(img) && IsState(NonZero(img), State(p, s))
    ensures d == Code(NonZero(img), State(p, s)) && q == Nb(p, d)
  {
    ghost var m := NonZero(img);
    ghost var t := Turn(m, p, s, 1);
    hide NonZero, ZeroFrame, Nb;
    d, q := s, p;
    var raw: int := s;
    ghost var k := 0;
    while true
      invariant 0 <= k < t && raw == s + k < 15
      decreases t - k
    {
      raw, k := raw + 1, k + 1;
      d := raw % 8;
      assert d == Rot(s, k);
      q := Nb(p, d);
      NeighbourInImage(img, p, d);
      if img[q.y, q.x] != 0 {
        break;
      }
    }
  }

  /** Walk the contour that starts at p0 until the pixel stop is met; tell whether it was. */
  method TraceContour(img: array2<int>, p0: Pt, stop: Pt, isHole: bool) returns (met: bool)
    requires ZeroFrame(img) && IsStart(NonZero(img), p0, isHole)
    ensures met <==> stop == p0 || Visits(ContourOf(NonZero(img), p0, isHole), stop)
  {
    ghost var m := NonZero(img);
    var s, found := FindWayIn(img, p0, StartGap(isHole));
    if !found {
      return p0 == stop;
    }
    ghost var border := ContourOf(m, p0, isHole);
    FirstBackUnique(m, p0, StartGap(isHole), s, border[0].s);
    met := FollowUntil(img, p0, s, stop, border);
  }

  method FollowUntil(img: array2<int>, p0: Pt, s0: Dir, stop: Pt, ghost border: seq<State>) returns (met: bool)
    requires ZeroFrame(img) && IsBorder(NonZero(img), border) && border[0] == State(p0, s0)
    ensures met <==> Visits(border, stop)
  {
    var p1 := Nb(p0, s0);
    var p3, s := p0, s0;
    ghost var n := 0;
    while true
      invariant n < |border| && border[n] == State(p3, s)
      invariant forall i :: 0 <= i < n ==> border[i].p != stop
      decreases |border| - n
    {
      var p4: Pt;
      s, p4 := FindWayOut(img, p3, s);
      ClosesOnlyAtEnd(NonZero(img), border, n);
      if p3 == stop || (p4 == p0 && p3 == p1) {
        break;
      }
      p3 := p4;
      s := Opp(s);
      n := n + 1;
    }
    met := p3 == stop;
  }
}
