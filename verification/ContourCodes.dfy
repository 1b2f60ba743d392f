/** The three ways a contour is written down - chain codes, all points, corner points -
    and what is lost between them: nothing. */
module ContourCodes {
  import opened PixelGrid

  datatype Rect = Rect(x: int, y: int, width: int, height: int)

  /** The points a chain visits when it is walked from pt: one point per code. */
  function Points(pt: Pt, codes: seq<Dir>): (pts: seq<Pt>)
    ensures |pts| == |codes|
    decreases |codes|
  {
    if codes == [] then []
    else
      var n := |codes| - 1;
      Points(pt, codes[..n]) + [End(pt, codes[..n])]
  }

  /** Where a chain walked from pt ends. */
  function End(pt: Pt, codes: seq<Dir>): Pt
    decreases |codes|
  {
    if codes == [] then pt
    else Nb(End(pt, codes[..|codes| - 1]), codes[|codes| - 1])
  }

  lemma {:induction false} PointsPrefix(pt: Pt, codes: seq<Dir>, i: nat)
    requires i < |codes|
    ensures Points(pt, codes)[i] == End(pt, codes[..i])
    decreases |codes|
  {
    var n := |codes| - 1;
    if i < n {
      PointsPrefix(pt, codes[..n], i);
      assert codes[..n][..i] == codes[..i];
    }
  }

  /** Each point is reached from the one before it by the code written there. */
  lemma PointsStep(pt: Pt, codes: seq<Dir>, i: nat)
    requires i < |codes|
    ensures Nb(Points(pt, codes)[i], codes[i]) == End(pt, codes[..i + 1])
    ensures i + 1 < |codes| ==> Points(pt, codes)[i + 1] == Nb(Points(pt, codes)[i], codes[i])
  {
    PointsPrefix(pt, codes, i);
    assert codes[..i + 1][..i] == codes[..i];
    if i + 1 < |codes| {
      PointsPrefix(pt, codes, i + 1);
    }
  }

  /** A chain that returns to where it started. */
  ghost predicate IsClosed(pt: Pt, codes: seq<Dir>) {
    |codes| > 0 && End(pt, codes) == pt
  }

  /** The code before position i on the closed chain. */
  function PrevCode(codes: seq<Dir>, i: nat): Dir
    requires i < |codes|
  {
    if i == 0 then codes[|codes| - 1] else codes[i - 1]
  }

  /** The border changes direction at position i. */
  predicate Turns(codes: seq<Dir>, i: nat)
    requires i < |codes|
  {
    codes[i] != PrevCode(codes, i)
  }

  /** Positions before n at which the direction changes, counted around the closed chain. */
  function Corners(codes: seq<Dir>, n: nat): (c: seq<nat>)
    requires n <= |codes|
    ensures forall k :: 0 <= k < |c| ==> c[k] < n
  {
    if n == 0 then []
    else Corners(codes, n - 1) + (if Turns(codes, n - 1) then [n - 1] else [])
  }

  /** The list c names exactly the positions before n where the direction changes, in order. */
  ghost predicate IsCornerList(codes: seq<Dir>, n: nat, c: seq<nat>)
    requires n <= |codes|
  {
    && (forall k :: 0 <= k < |c| ==> c[k] < n)
    && (forall j, k :: 0 <= j < k < |c| ==> c[j] < c[k])
    && (forall i :: 0 <= i < n ==> (i in c <==> Turns(codes, i)))
  }

  lemma {:induction false} CornersAre(codes: seq<Dir>, n: nat)
    requires n <= |codes|
    ensures IsCornerList(codes, n, Corners(codes, n))
  {
    if n > 0 {
      CornersAre(codes, n - 1);
      var c := Corners(codes, n - 1);
      var d := Corners(codes, n);
      assert d == c || d == c + [n - 1];
      forall i | 0 <= i < n
        ensures i in d <==> Turns(codes, i)
      {
        assert i in d <==> i in c || (i == n - 1 && Turns(codes, i));
      }
    }
  }

  function Select(pts: seq<Pt>, idx: seq<nat>): (r: seq<Pt>)
    requires forall k :: 0 <= k < |idx| ==> idx[k] < |pts|
    ensures |r| == |idx| && forall k :: 0 <= k < |r| ==> r[k] == pts[idx[k]]
  {
    seq(|idx|, k requires 0 <= k < |idx| => pts[idx[k]])
  }

  lemma PrefixStep<T>(s: seq<T>, n: nat)
    requires n < |s|
    ensures s[..n + 1] == s[..n] + [s[n]]
  {
  }

  lemma EndStep(pt: Pt, codes: seq<Dir>, n: nat)
    requires n < |codes|
    ensures End(pt, codes[..n + 1]) == Nb(End(pt, codes[..n]), codes[n])
  {
    assert codes[..n + 1][..n] == codes[..n];
  }

  lemma SelectCorners(pts: seq<Pt>, codes: seq<Dir>, i: nat)
    requires |pts| == |codes| && i < |codes|
    ensures Select(pts, Corners(codes, i + 1)) == Select(pts, Corners(codes, i))
         + (if Turns(codes, i) then [pts[i]] else [])
  {
  }

  /** The corner points of a closed chain. */
  function Simple(pt: Pt, codes: seq<Dir>): seq<Pt> {
    Select(Points(pt, codes), Corners(codes, |codes|))
  }

  // ----- Reading a chain back -----

  /** The chain reader: it hands out the current point and moves on by one code. */
  class ChainReader {
    const codes: seq<Dir>
    var pt: Pt
    var pos: nat

    constructor (origin: Pt, codes: seq<Dir>)
      ensures this.codes == codes && pt == origin && pos == 0
    {
      this.codes, pt, pos := codes, origin, 0;
    }

    method ReadPoint() returns (r: Pt, code: Dir)
      requires pos < |codes|
      modifies this
      ensures r == old(pt) && code == codes[old(pos)]
      ensures pt == Nb(old(pt), codes[old(pos)]) && pos == old(pos) + 1
    {
      r := pt;
      code := codes[pos];
      pos := pos + 1;
      pt := Nb(r, code);
    }
  }

  datatype Approx = ChainCode | ApproxNone | ApproxSimple

  /** How far apart two codes are around the circle of directions. */
  function AbsDiff(k: int): (d: int)
    requires 0 <= k < 15
    ensures 0 <= d <= 4
  {
    [1, 2, 3, 4, 3, 2, 1, 0, 1, 2, 3, 4, 3, 2, 1][k]
  }

  /** From one code to the next the chain turns by d eighths, to either side. */
  predicate Bends(prev: Dir, code: Dir, d: int) {
    0 <= d <= 4 && (Rot(prev, d) == code || Back(prev, d) == code)
  }

  lemma DiffIsBend(prev: Dir, code: Dir)
    ensures Bends(prev, code, AbsDiff(code as int - prev as int + 7))
  {
  }

  /** The curvature of position i. */
  predicate BendAt(codes: seq<Dir>, curvature: seq<int>, i: nat)
    requires i < |codes| && i < |curvature|
  {
    Bends(PrevCode(codes, i), codes[i], curvature[i])
  }

  lemma NoBend(codes: seq<Dir>, curvature: seq<int>, i: nat)
    requires i < |codes| && i < |curvature| && BendAt(codes, curvature, i)
    ensures 0 <= curvature[i] <= 4 && (curvature[i] == 0 <==> !Turns(codes, i))
  {
  }

  lemma BendsMore(codes: seq<Dir>, curvature: seq<int>, s: int)
    requires |curvature| < |codes| && Bends(PrevCode(codes, |curvature|), codes[|curvature|], s)
    requires forall j :: 0 <= j < |curvature| ==> BendAt(codes, curvature, j)
    ensures forall j :: 0 <= j <= |curvature| ==> BendAt(codes, curvature + [s], j)
    ensures s == 0 <==> !Turns(codes, |curvature|)
  {
    forall j | 0 <= j <= |curvature|
      ensures BendAt(codes, curvature + [s], j)
    {
      assert j < |curvature| ==> BendAt(codes, curvature, j);
    }
    NoBend(codes, curvature + [s], |curvature|);
  }

  /** Pass 0 of the chain approximator.  The first code is compared with the last one,
      which is where the reader's previous element starts out. */
  method RestorePoints(origin: Pt, codes: seq<Dir>, approx: Approx) returns (pts: seq<Pt>, curvature: seq<int>)
    requires !approx.ChainCode?
    ensures codes == [] ==> pts == [origin] && curvature == []
    ensures codes != [] && approx.ApproxNone? ==> pts == Points(origin, codes)
    ensures codes != [] && approx.ApproxSimple? ==> pts == Simple(origin, codes)
    ensures |curvature| == |codes|
    ensures forall i :: 0 <= i < |codes| ==> BendAt(codes, curvature, i)
  {
    pts, curvature := [], [];
    if codes == [] {
      pts := [origin];
      return;
    }
    var reader := new ChainReader(origin, codes);
    var prev := codes[|codes| - 1];
    hide Points, Corners, Select;
    assert Select(Points(origin, codes), Corners(codes, 0)) == [] by {
      NoCorners(Points(origin, codes), codes);
    }
    for i := 0 to |codes|
      invariant reader.pos == i && reader.codes == codes && reader.pt == End(origin, codes[..i])
      invariant i < |codes| ==> prev == PrevCode(codes, i)
      invariant |curvature| == i
      invariant forall j :: 0 <= j < i ==> BendAt(codes, curvature, j)
      invariant approx.ApproxNone? ==> pts == Points(origin, codes)[..i]
      invariant approx.ApproxSimple? ==> pts == Select(Points(origin, codes), Corners(codes, i))
    {
      var pt, code := reader.ReadPoint();
      PointsPrefix(origin, codes, i);
      SelectCorners(Points(origin, codes), codes, i);
      PrefixStep(Points(origin, codes), i);
      EndStep(origin, codes, i);
      var s := AbsDiff(code as int - prev as int + 7);
      DiffIsBend(prev, code);
      BendsMore(codes, curvature, s);
      if approx.ApproxNone? || s != 0 {
        pts := pts + [pt];
      }
      curvature := curvature + [s];
      prev := code;
    }
    WholePrefix(Points(origin, codes));
    SimpleIs(origin, codes);
  }

  lemma NoCorners(pts: seq<Pt>, codes: seq<Dir>)
    requires |pts| == |codes|
    ensures Select(pts, Corners(codes, 0)) == []
  {
  }

  lemma SimpleIs(pt: Pt, codes: seq<Dir>)
    ensures Simple(pt, codes) == Select(Points(pt, codes), Corners(codes, |codes|))
  {
  }

  lemma WholePrefix<T>(s: seq<T>)
    ensures s[..|s|] == s
  {
  }

  // ----- Corner points determine the contour -----

  function Sign(a: int): int {
    if a > 0 then 1 else if a < 0 then -1 else 0
  }

  function Abs(a: int): nat {
    if a < 0 then -a else a
  }

  /** The straight run from a up to b, without b. */
  function Run(a: Pt, b: Pt): seq<Pt>
    decreases Abs(b.x - a.x) + Abs(b.y - a.y)
  {
    if a == b then [] else [a] + Run(Pt(a.x + Sign(b.x - a.x), a.y + Sign(b.y - a.y)), b)
  }

  /** Runs between consecutive points of an open polyline. */
  function Expand(c: seq<Pt>): seq<Pt> {
    if |c| < 2 then [] else Run(c[0], c[1]) + Expand(c[1..])
  }

  /** The contour described by its corners: all runs, the closing one included. */
  function ExpandClosed(c: seq<Pt>): seq<Pt> {
    if c == [] then [] else Expand(c + [c[0]])
  }

  /** All points of a chain, the end included. */
  ghost function Track(pt: Pt, codes: seq<Dir>): (v: seq<Pt>)
    ensures |v| == |codes| + 1 && v[..|codes|] == Points(pt, codes) && v[|codes|] == End(pt, codes)
  {
    Points(pt, codes) + [End(pt, codes)]
  }

  ghost predicate StepAt(v: seq<Pt>, i: nat, d: Dir)
    requires i + 1 < |v|
  {
    v[i + 1] == Nb(v[i], d)
  }

  lemma TrackStep(pt: Pt, codes: seq<Dir>)
    ensures forall i :: 0 <= i < |codes| ==> StepAt(Track(pt, codes), i, codes[i])
    ensures Track(pt, codes)[0] == pt
  {
    var v := Track(pt, codes);
    forall i | 0 <= i < |codes|
      ensures StepAt(v, i, codes[i])
    {
      PointsStep(pt, codes, i);
      assert i + 1 == |codes| ==> codes[..i + 1] == codes;
    }
    if codes != [] {
      PointsPrefix(pt, codes, 0);
    }
  }

  ghost predicate Straight(q: seq<Pt>, d: Dir) {
    forall i :: 0 <= i < |q| - 1 ==> StepAt(q, i, d)
  }

  lemma {:induction false} StraightEnds(q: seq<Pt>, d: Dir)
    requires |q| > 0 && Straight(q, d)
    ensures q[|q| - 1].x - q[0].x == (|q| - 1) * Dx(d)
    ensures q[|q| - 1].y - q[0].y == (|q| - 1) * Dy(d)
    decreases |q|
  {
    if |q| > 1 {
      var r := q[..|q| - 1];
      forall i | 0 <= i < |r| - 1
        ensures StepAt(r, i, d)
      {
        assert StepAt(q, i, d);
      }
      StraightEnds(r, d);
      assert StepAt(q, |q| - 2, d);
      assert (|q| - 1) * Dx(d) == (|q| - 2) * Dx(d) + Dx(d);
      assert (|q| - 1) * Dy(d) == (|q| - 2) * Dy(d) + Dy(d);
    }
  }

  /** A run in one of the eight directions is rebuilt from its two ends. */
  lemma {:induction false} RunIsStraight(q: seq<Pt>, d: Dir)
    requires |q| > 0 && Straight(q, d)
    ensures Run(q[0], q[|q| - 1]) == q[..|q| - 1]
    decreases |q|
  {
    var n := |q| - 1;
    if n > 0 {
      StraightEnds(q, d);
      SignOfMultiple(n, Dx(d));
      SignOfMultiple(n, Dy(d));
      assert StepAt(q, 0, d);
      forall i | 0 <= i < |q[1..]| - 1
        ensures StepAt(q[1..], i, d)
      {
        assert StepAt(q, i + 1, d);
      }
      RunIsStraight(q[1..], d);
      assert q[..n] == [q[0]] + q[1..][..n - 1];
    }
  }

  lemma SignOfMultiple(n: nat, e: int)
    requires n > 0 && -1 <= e <= 1
    ensures Sign(n * e) == e
  {
  }

  /** No corner strictly between i and j: one code throughout. */
  lemma {:induction false} SameCode(codes: seq<Dir>, i: nat, j: nat)
    requires i < j <= |codes|
    requires forall k :: i < k < j ==> !Turns(codes, k)
    ensures forall k :: i <= k < j ==> codes[k] == codes[i]
    decreases j
  {
    if j > i + 1 {
      SameCode(codes, i, j - 1);
      assert !Turns(codes, j - 1);
    }
  }

  lemma StraightPart(pt: Pt, codes: seq<Dir>, i: nat, j: nat)
    requires i <= j <= |codes| && i < |codes|
    requires forall k :: i <= k < j ==> codes[k] == codes[i]
    ensures Straight(Track(pt, codes)[i..j + 1], codes[i])
  {
    var v := Track(pt, codes);
    var q := v[i..j + 1];
    TrackStep(pt, codes);
    forall k | 0 <= k < |q| - 1
      ensures StepAt(q, k, codes[i])
    {
      assert StepAt(v, i + k, codes[i + k]);
    }
  }

  lemma RunBetween(pt: Pt, codes: seq<Dir>, i: nat, j: nat)
    requires i < j < |codes|
    requires forall k :: i < k < j ==> !Turns(codes, k)
    ensures Run(Points(pt, codes)[i], Points(pt, codes)[j]) == Points(pt, codes)[i..j]
  {
    SameCode(codes, i, j);
    StraightPart(pt, codes, i, j);
    var q := Track(pt, codes)[i..j + 1];
    RunIsStraight(q, codes[i]);
    assert q[..|q| - 1] == Points(pt, codes)[i..j];
  }

  lemma NoCornerBetween(codes: seq<Dir>, c: seq<nat>, k: nat)
    requires IsCornerList(codes, |codes|, c) && k + 1 < |c|
    ensures forall i :: c[k] < i < c[k + 1] ==> !Turns(codes, i)
  {
    forall i | c[k] < i < c[k + 1]
      ensures i !in c
    {
      forall j | 0 <= j < |c|
        ensures c[j] != i
      {
        assert j <= k ==> c[j] <= c[k];
        assert j >= k + 1 ==> c[j] >= c[k + 1];
      }
    }
  }

  /** The runs between the corners from the k-th on give the points from the k-th to the
      last corner. */
  lemma {:induction false} ExpandFrom(pt: Pt, codes: seq<Dir>, c: seq<nat>, k: nat)
    requires IsCornerList(codes, |codes|, c) && k < |c|
    ensures Expand(Select(Points(pt, codes), c[k..])) == Points(pt, codes)[c[k]..c[|c| - 1]]
    decreases |c| - k
  {
    var pts := Points(pt, codes);
    var rest := Select(pts, c[k..]);
    if k < |c| - 1 {
      ExpandFrom(pt, codes, c, k + 1);
      NoCornerBetween(codes, c, k);
      RunBetween(pt, codes, c[k], c[k + 1]);
      assert rest[1..] == Select(pts, c[k + 1..]);
      assert rest[0] == pts[c[k]] && rest[1] == pts[c[k + 1]];
      SplitRange(pts, c[k], c[k + 1], c[|c| - 1]);
    }
  }

  lemma SplitRange<T>(s: seq<T>, i: nat, j: nat, k: nat)
    requires i <= j <= k <= |s|
    ensures s[i..k] == s[i..j] + s[j..k]
  {
  }

  lemma {:induction false} ExpandAppend(c: seq<Pt>, p: Pt)
    requires |c| > 0
    ensures Expand(c + [p]) == Expand(c) + Run(c[|c| - 1], p)
    decreases |c|
  {
    hide Run;
    if |c| == 1 {
      assert (c + [p])[1..] == [p];
      assert Expand([p]) == [];
      assert Expand(c + [p]) == Run(c[0], p) + [];
    } else {
      ExpandAppend(c[1..], p);
      var d := c + [p];
      assert d[1..] == c[1..] + [p] && d[0] == c[0] && d[1] == c[1];
      assert Expand(d) == Run(c[0], c[1]) + (Expand(c[1..]) + Run(c[|c| - 1], p));
    }
  }

  lemma StraightConcat(q: seq<Pt>, r: seq<Pt>, d: Dir)
    requires |q| > 0 && |r| > 0 && Straight(q, d) && Straight(r, d) && q[|q| - 1] == r[0]
    ensures Straight(q[..|q| - 1] + r, d)
  {
    var t := q[..|q| - 1] + r;
    forall i | 0 <= i < |t| - 1
      ensures StepAt(t, i, d)
    {
      if i < |q| - 1 {
        assert StepAt(q, i, d);
      } else {
        assert StepAt(r, i - (|q| - 1), d);
      }
    }
  }

  lemma CornerEnds(codes: seq<Dir>, c: seq<nat>)
    requires IsCornerList(codes, |codes|, c) && |c| > 0
    ensures forall i :: 0 <= i < c[0] ==> !Turns(codes, i)
    ensures forall i :: c[|c| - 1] < i < |codes| ==> !Turns(codes, i)
  {
    forall i | 0 <= i < |codes| && Turns(codes, i)
      ensures c[0] <= i <= c[|c| - 1]
    {
      assert i in c;
    }
  }

  /** The closing run leads from the last corner l through the start of the chain to the
      first corner f. */
  lemma ClosingRun(pt: Pt, codes: seq<Dir>, l: nat, f: nat)
    requires IsClosed(pt, codes) && f < |codes| && l < |codes|
    requires forall i :: 0 <= i < f ==> !Turns(codes, i)
    requires forall i :: l < i < |codes| ==> !Turns(codes, i)
    ensures Run(Points(pt, codes)[l], Points(pt, codes)[f])
         == Points(pt, codes)[l..] + Points(pt, codes)[..f]
  {
    var v, pts, n := Track(pt, codes), Points(pt, codes), |codes|;
    TrackStep(pt, codes);
    SameCode(codes, l, n);
    StraightPart(pt, codes, l, n);
    var tail, head := v[l..n + 1], v[0..f + 1];
    assert tail[..|tail| - 1] == pts[l..];
    assert head == pts[..f] + [pts[f]];
    if f > 0 {
      SameCode(codes, 0, f);
      assert !Turns(codes, 0) && codes[0] == codes[l];
      StraightPart(pt, codes, 0, f);
      JoinedRun(tail, head, codes[l]);
    } else {
      RunIsStraight(tail, codes[l]);
    }
  }

  lemma JoinedRun(tail: seq<Pt>, head: seq<Pt>, d: Dir)
    requires |tail| > 1 && |head| > 0 && Straight(tail, d) && Straight(head, d)
    requires tail[|tail| - 1] == head[0]
    ensures Run(tail[0], head[|head| - 1]) == tail[..|tail| - 1] + head[..|head| - 1]
  {
    var q := tail[..|tail| - 1] + head;
    StraightConcat(tail, head, d);
    RunIsStraight(q, d);
    assert q[..|q| - 1] == tail[..|tail| - 1] + head[..|head| - 1];
  }

  /** A closed chain turns somewhere. */
  lemma ClosedTurns(pt: Pt, codes: seq<Dir>)
    requires IsClosed(pt, codes)
    ensures |Corners(codes, |codes|)| > 0
  {
    CornersAre(codes, |codes|);
    if i :| 0 <= i < |codes| && Turns(codes, i) {
      assert i in Corners(codes, |codes|);
    } else {
      var n := |codes|;
      TrackStep(pt, codes);
      SameCode(codes, 0, n);
      StraightPart(pt, codes, 0, n);
      StraightEnds(Track(pt, codes)[0..n + 1], codes[0]);
      SignOfMultiple(n, Dx(codes[0]));
      SignOfMultiple(n, Dy(codes[0]));
    }
  }

  /** The points of the closed chain from position r on, once around. */
  function Rotated(pts: seq<Pt>, r: nat): seq<Pt>
    requires r <= |pts|
  {
    pts[r..] + pts[..r]
  }

  /** Expanding the corner points along straight runs gives back every point of the
      contour, in order, starting at the first corner. */
  lemma SimpleRoundTrip(pt: Pt, codes: seq<Dir>)
    requires IsClosed(pt, codes)
    ensures |Corners(codes, |codes|)| > 0
    ensures ExpandClosed(Simple(pt, codes)) == Rotated(Points(pt, codes), Corners(codes, |codes|)[0])
  {
    ClosedTurns(pt, codes);
    CornersAre(codes, |codes|);
    ExpandCorners(pt, codes, Corners(codes, |codes|));
  }

  lemma ExpandCorners(pt: Pt, codes: seq<Dir>, c: seq<nat>)
    requires IsClosed(pt, codes) && IsCornerList(codes, |codes|, c) && |c| > 0
    ensures ExpandClosed(Select(Points(pt, codes), c)) == Rotated(Points(pt, codes), c[0])
  {
    var pts, f, l := Points(pt, codes), c[0], c[|c| - 1];
    var sel := Select(pts, c);
    ExpandFrom(pt, codes, c, 0);
    assert c[0..] == c;
    ExpandAppend(sel, sel[0]);
    CornerEnds(codes, c);
    ClosingRun(pt, codes, l, f);
    JoinRanges(pts, f, l);
  }

  lemma JoinRanges<T>(s: seq<T>, f: nat, l: nat)
    requires f <= l <= |s|
    ensures s[f..l] + (s[l..] + s[..f]) == s[f..] + s[..f]
  {
  }

  // ----- The bounding rectangle from corner points only -----

  ghost predicate IsBoundingRect(r: Rect, pts: seq<Pt>) {
    && (forall i :: 0 <= i < |pts| ==> r.x <= pts[i].x < r.x + r.width && r.y <= pts[i].y < r.y + r.height)
    && (exists i :: 0 <= i < |pts| && pts[i].x == r.x)
    && (exists i :: 0 <= i < |pts| && pts[i].x == r.x + r.width - 1)
    && (exists i :: 0 <= i < |pts| && pts[i].y == r.y)
    && (exists i :: 0 <= i < |pts| && pts[i].y == r.y + r.height - 1)
  }

  /** One coordinate of a closed chain, closed up, with the step of each code. */
  ghost predicate Profile(v: seq<int>, codes: seq<Dir>, step: seq<int>) {
    && |v| == |codes| + 1 && |codes| > 0 && v[|codes|] == v[0] && |step| == 8
    && forall i, j :: 0 <= i < |codes| && j == i + 1 ==> v[j] == v[i] + step[codes[i]]
  }

  /** Going back along a run that does not descend. */
  lemma {:induction false} BelowBackward(v: seq<int>, codes: seq<Dir>, step: seq<int>, lo: int, i: nat)
    requires Profile(v, codes, step) && i < |codes| && lo <= v[0]
    requires forall k :: 0 <= k < |codes| && Turns(codes, k) ==> lo <= v[k]
    requires step[codes[i]] >= 0
    ensures lo <= v[i]
    decreases i
  {
    if i > 0 && codes[i] == codes[i - 1] {
      BelowBackward(v, codes, step, lo, i - 1);
      assert v[i] == v[i - 1] + step[codes[i - 1]];
    }
  }

  /** Going forward along a run that descends. */
  lemma {:induction false} BelowForward(v: seq<int>, codes: seq<Dir>, step: seq<int>, lo: int, i: nat)
    requires Profile(v, codes, step) && i < |codes| && lo <= v[0]
    requires forall k :: 0 <= k < |codes| && Turns(codes, k) ==> lo <= v[k]
    requires step[codes[i]] < 0
    ensures lo <= v[i]
    decreases |codes| - i
  {
    assert v[i + 1] == v[i] + step[codes[i]];
    if i + 1 < |codes| && codes[i + 1] == codes[i] {
      BelowForward(v, codes, step, lo, i + 1);
    }
  }

  /** A lower bound of the start and of the corners is a lower bound of every point. */
  lemma BoundFromCorners(v: seq<int>, codes: seq<Dir>, step: seq<int>, lo: int)
    requires Profile(v, codes, step) && lo <= v[0]
    requires forall k :: 0 <= k < |codes| && Turns(codes, k) ==> lo <= v[k]
    ensures forall i :: 0 <= i < |codes| ==> lo <= v[i]
  {
    forall i | 0 <= i < |codes|
      ensures lo <= v[i]
    {
      if step[codes[i]] >= 0 {
        BelowBackward(v, codes, step, lo, i);
      } else {
        BelowForward(v, codes, step, lo, i);
      }
    }
  }

  const STEP_X: seq<int> := [1, 1, 0, -1, -1, -1, 0, 1]
  const STEP_Y: seq<int> := [0, -1, -1, -1, 0, 1, 1, 1]

  ghost function Negated(v: seq<int>): seq<int> {
    seq(|v|, i requires 0 <= i < |v| => -v[i])
  }

  ghost function Xs(pts: seq<Pt>): seq<int> {
    seq(|pts|, i requires 0 <= i < |pts| => pts[i].x)
  }

  ghost function Ys(pts: seq<Pt>): seq<int> {
    seq(|pts|, i requires 0 <= i < |pts| => pts[i].y)
  }

  lemma {:induction false} ProfilesOf(pt: Pt, codes: seq<Dir>)
    requires IsClosed(pt, codes)
    ensures Profile(Xs(Points(pt, codes) + [pt]), codes, STEP_X)
    ensures Profile(Ys(Points(pt, codes) + [pt]), codes, STEP_Y)
    ensures Points(pt, codes)[0] == pt
  {
    var v := Points(pt, codes) + [pt];
    assert v == Track(pt, codes);
    TrackStep(pt, codes);
    forall i | 0 <= i < |codes|
      ensures v[i + 1] == Nb(v[i], codes[i])
    {
      assert StepAt(v, i, codes[i]);
    }
    forall d: Dir
      ensures STEP_X[d] == Dx(d) && STEP_Y[d] == Dy(d)
    {
    }
  }

  /** The rectangle that covers the start and the corners covers the whole closed chain. */
  lemma CornersBoundAll(pt: Pt, codes: seq<Dir>, x0: int, x1: int, y0: int, y1: int)
    requires IsClosed(pt, codes)
    requires x0 <= pt.x <= x1 && y0 <= pt.y <= y1
    requires forall k :: 0 <= k < |codes| && Turns(codes, k) ==>
               x0 <= Points(pt, codes)[k].x <= x1 && y0 <= Points(pt, codes)[k].y <= y1
    ensures forall k :: 0 <= k < |codes| ==>
               x0 <= Points(pt, codes)[k].x <= x1 && y0 <= Points(pt, codes)[k].y <= y1
  {
    hide Points, Profile;
    ProfilesOf(pt, codes);
    var pts := Points(pt, codes);
    var xs, ys := Xs(pts + [pt]), Ys(pts + [pt]);
    assert forall k :: 0 <= k < |codes| ==> xs[k] == pts[k].x && ys[k] == pts[k].y;
    BoundsOneWay(codes, xs, STEP_X, x0, x1);
    BoundsOneWay(codes, ys, STEP_Y, y0, y1);
  }

  lemma BoundsOneWay(codes: seq<Dir>, v: seq<int>, step: seq<int>, lo: int, hi: int)
    requires Profile(v, codes, step) && lo <= v[0] <= hi
    requires forall k :: 0 <= k < |codes| && Turns(codes, k) ==> lo <= v[k] <= hi
    ensures |v| == |codes| + 1
    ensures forall k :: 0 <= k < |codes| ==> lo <= v[k] <= hi
  {
    BoundFromCorners(v, codes, step, lo);
    BoundFromCorners(Negated(v), codes, Negated(step), -hi);
    forall k | 0 <= k < |codes|
      ensures v[k] <= hi
    {
      assert Negated(v)[k] == -v[k];
    }
  }
}
