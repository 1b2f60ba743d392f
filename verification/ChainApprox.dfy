/** The Teh-Chin chain approximator, passes 0 to 3.

    Pass 0 restores the points of the chain and links those where the direction changes; pass 1
    searches the support region of each; passes 2 and 3 unlink points, in place, while they
    walk the list.  Distances are exact; the curvature of the cosine method is a parameter. */
module ChainApprox {
  import opened PixelGrid
  import opened ContourCodes

  /** Position i - k or i + k on a closed chain, wrapped once. */
  function Behind(i: int, k: int, len: int): int {
    if i - k < 0 then i - k + len else i - k
  }

  function Ahead(i: int, k: int, len: int): int {
    if i + k >= len then i + k - len else i + k
  }

  lemma WrapsInRange(i: int, k: int, len: int)
    requires 0 <= i < len && 0 <= k <= len
    ensures 0 <= Behind(i, k, len) < len && 0 <= Ahead(i, k, len) < len
  {
  }

  /** The squared distance of two points. */
  function Dist2(p: Pt, q: Pt): (d: int)
    ensures d >= 0 && (p == q ==> d == 0)
  {
    var dx, dy := q.x - p.x, q.y - p.y;
    Squares(dx, dy);
    dx * dx + dy * dy
  }

  lemma Squares(a: int, b: int)
    ensures a * a >= 0 && b * b >= 0 && a * a == (-a) * (-a) && b * b == (-b) * (-b)
  {
  }

  lemma Dist2Symmetric(p: Pt, q: Pt)
    ensures Dist2(p, q) == Dist2(q, p)
  {
    Squares(q.x - p.x, q.y - p.y);
  }

  /** The squared length of the chord over k points to either side of i. */
  function Chord(pts: seq<Pt>, i: int, k: int): int
    requires 0 <= i < |pts| && 0 <= k <= |pts|
  {
    WrapsInRange(i, k, |pts|);
    Dist2(pts[Behind(i, k, |pts|)], pts[Ahead(i, k, |pts|)])
  }

  /** Twice the signed area spanned by the chord and point i. */
  function Area(pts: seq<Pt>, i: int, k: int): int
    requires 0 <= i < |pts| && 0 <= k <= |pts|
  {
    WrapsInRange(i, k, |pts|);
    var p, q, r := pts[i], pts[Behind(i, k, |pts|)], pts[Ahead(i, k, |pts|)];
    (p.x - q.x) * (r.y - q.y) - (p.y - q.y) * (r.x - q.x)
  }

  /** The search stops at k: the chord has not grown, or the bend has turned or flattened. */
  predicate Stops(pts: seq<Pt>, i: int, k: int)
    requires 0 <= i < |pts| && 1 <= k <= |pts|
  {
    var l, lk, d := Chord(pts, i, k - 1), Chord(pts, i, k), Area(pts, i, k - 1);
    var turn := d * lk - Area(pts, i, k) * l;
    k > 1 && (l >= lk || (d > 0 && turn <= 0) || (d < 0 && turn >= 0))
  }

  /** The chords over k and over len - k points are the same. */
  lemma ChordSymmetric(pts: seq<Pt>, i: int, k: int)
    requires 0 <= i < |pts| && 0 <= k <= |pts|
    ensures Chord(pts, i, |pts| - k) == Chord(pts, i, k)
  {
    WrapsInRange(i, k, |pts|);
    WrapsInRange(i, |pts| - k, |pts|);
    var n := |pts|;
    assert Behind(i, n - k, n) == Ahead(i, k, n) && Ahead(i, n - k, n) == Behind(i, k, n);
    Dist2Symmetric(pts[Behind(i, k, n)], pts[Ahead(i, k, n)]);
  }

  /** Half way around at the latest the chord stops growing. */
  lemma StopsHalfWay(pts: seq<Pt>, i: int, k: int)
    requires 0 <= i < |pts| && 2 <= k <= |pts|
    requires 2 * k == |pts| || 2 * k == |pts| + 1 || |pts| == 2
    ensures Stops(pts, i, k)
  {
    var n := |pts|;
    WrapsInRange(i, k, n);
    if 2 * k == n || n == 2 {
      assert Behind(i, k, n) == Ahead(i, k, n);
    } else {
      ChordSymmetric(pts, i, k - 1);
    }
  }

  /** A slot of the list is an index or -1 for the null pointer. */
  function At(list: seq<nat>, j: int): int {
    if 0 <= j < |list| then list[j] else -1
  }

  function Removed(list: seq<nat>, at: nat): seq<nat>
    requires at < |list|
  {
    list[..at] + list[at + 1..]
  }

  ghost predicate Increasing(list: seq<nat>) {
    forall i, j :: 0 <= i < j < |list| ==> list[i] < list[j]
  }

  /** Points dropped, none moved. */
  ghost predicate Thinned(before: seq<nat>, after: seq<nat>) {
    Increasing(after) && forall x :: x in after ==> x in before
  }

  /** Each linked point points to the one behind it. */
  ghost predicate Links(next: seq<int>, list: seq<nat>, count: nat)
    requires count <= |list|
  {
    forall j: nat :: j < count ==> LinkAt(next, list, j)
  }

  ghost predicate LinkAt(next: seq<int>, list: seq<nat>, j: nat)
    requires j < |list|
  {
    list[j] < |next| && next[list[j]] == At(list, j + 1)
  }

  /** Curvature is not negative, and 0 outside the list. */
  ghost predicate Covers(s: seq<int>, list: seq<nat>) {
    forall i :: 0 <= i < |s| ==> s[i] >= 0 && (s[i] != 0 ==> i in list)
  }

  ghost predicate Below(list: seq<nat>, bound: nat) {
    forall j :: 0 <= j < |list| ==> list[j] < bound
  }

  /** An end of the chord over j points is the point itself. */
  ghost predicate Degenerate(pts: seq<Pt>, i: nat, j: nat)
    requires i < |pts| && j < |pts|
  {
    pts[Behind(i, j, |pts|)] == pts[i] || pts[Ahead(i, j, |pts|)] == pts[i]
  }

  /** The support region of a point is the one the search finds. */
  ghost predicate Supported(pts: seq<Pt>, k: seq<nat>, i: nat) {
    && i < |pts| && i < |k| && 1 <= k[i] < |pts| && Stops(pts, i, k[i] + 1)
    && forall j :: 1 <= j <= k[i] ==> !Stops(pts, i, j)
  }

  lemma DegenerateIs(pts: seq<Pt>, i: nat, j: nat)
    requires i < |pts| && j < |pts|
    ensures 0 <= Behind(i, j, |pts|) < |pts| && 0 <= Ahead(i, j, |pts|) < |pts|
    ensures Degenerate(pts, i, j) <==> pts[Behind(i, j, |pts|)] == pts[i] || pts[Ahead(i, j, |pts|)] == pts[i]
  {
    WrapsInRange(i, j, |pts|);
  }

  /** The cosine value over j points to either side. */
  ghost function CosineAt(pts: seq<Pt>, i: nat, j: nat, cosine: (Pt, Pt, Pt) -> int): int
    requires i < |pts| && j < |pts|
  {
    WrapsInRange(i, j, |pts|);
    cosine(pts[i], pts[Behind(i, j, |pts|)], pts[Ahead(i, j, |pts|)])
  }

  /** Coming inwards from the end of the region the cosine values rise up to the one over `top`
      points, and there they stop rising, or the chord is degenerate, or the point is reached. */
  ghost predicate RisesTo(pts: seq<Pt>, i: nat, region: nat, cosine: (Pt, Pt, Pt) -> int, top: nat) {
    && i < |pts| && 1 <= top <= region < |pts|
    && (forall j :: top <= j <= region ==> !Degenerate(pts, i, j))
    && (forall j :: top <= j < region ==> CosineAt(pts, i, j, cosine) > CosineAt(pts, i, j + 1, cosine))
    && (top == 1 || Degenerate(pts, i, top - 1) || CosineAt(pts, i, top - 1, cosine) <= CosineAt(pts, i, top, cosine))
  }

  /** The curvature of the cosine method: 0 where an end of the region is the point itself, and
      else the greatest value of the rising series that begins at the end of the region. */
  ghost predicate IsCosine(pts: seq<Pt>, i: nat, region: nat, cosine: (Pt, Pt, Pt) -> int, c: int) {
    && i < |pts| && 1 <= region < |pts|
    && if Degenerate(pts, i, region) then c == 0
       else exists top: nat :: RisesTo(pts, i, region, cosine, top) && c == CosineAt(pts, i, top, cosine)
  }

  ghost predicate Curved(pts: seq<Pt>, k: seq<nat>, s: seq<int>, cosine: (Pt, Pt, Pt) -> int, i: nat) {
    i < |pts| && i < |k| && i < |s| && IsCosine(pts, i, k[i], cosine, s[i])
  }

  /** With the cosine method a point has no curvature only when its region is degenerate. */
  lemma CurvedOrDegenerate(pts: seq<Pt>, k: seq<nat>, s: seq<int>, cosine: (Pt, Pt, Pt) -> int, i: nat)
    requires Curved(pts, k, s, cosine, i) && forall p, q, r :: cosine(p, q, r) > 0
    ensures s[i] >= 0 && (s[i] == 0 <==> Degenerate(pts, i, k[i]))
  {
  }

  lemma BendsAndTurns(codes: seq<Dir>, curvature: seq<int>)
    requires |curvature| == |codes| && forall i :: 0 <= i < |codes| ==> BendAt(codes, curvature, i)
    ensures forall i :: 0 <= i < |codes| ==> curvature[i] >= 0 && (curvature[i] == 0 <==> !Turns(codes, i))
  {
    forall i | 0 <= i < |codes|
      ensures curvature[i] >= 0 && (curvature[i] == 0 <==> !Turns(codes, i))
    {
      NoBend(codes, curvature, i);
    }
  }

  class Approximator {
    const pts: seq<Pt>
    const s: array<int>
    const k: array<nat>
    const next: array<int>
    var first: int
    ghost var list: seq<nat>

    ghost predicate Shape() {
      s.Length == |pts| && k.Length == |pts| && next.Length == |pts| && s != next
    }

    /** The linked points, in increasing order; every point with curvature is among them. */
    ghost predicate Valid()
      reads this, s, next
    {
      && Shape() && first == At(list, 0) && Increasing(list) && Below(list, |pts|)
      && Links(next[..], list, |list|) && Covers(s[..], list)
    }

    /** Linked but for the end of the list. */
    ghost predicate Open(bound: nat)
      reads this, next
    {
      && Shape() && bound <= |pts| && first == At(list, 0) && Increasing(list) && Below(list, bound)
      && Links(next[..], list, if list == [] then 0 else |list| - 1)
    }

    /** Pass 0: the points, their curvature, and the list of those where the chain turns. */
    constructor (origin: Pt, codes: seq<Dir>)
      requires codes != []
      ensures Valid() && fresh(s) && fresh(k) && fresh(next)
      ensures pts == Points(origin, codes) && list == Corners(codes, |codes|)
      ensures forall i :: 0 <= i < |pts| ==> BendAt(codes, s[..], i)
    {
      var points, curvature := RestorePoints(origin, codes, ApproxNone);
      var n := |points|;
      pts := points;
      s := new int[n](i requires 0 <= i < n => curvature[i]);
      k := new nat[n];
      next := new int[n];
      first := -1;
      list := [];
      new;
      hide Points, Corners;
      BendsAndTurns(codes, curvature);
      assert s[..] == curvature;
      LinkCorners(codes);
    }

    method LinkCorners(codes: seq<Dir>)
      requires Shape() && |codes| == |pts| && first == -1 && list == []
      requires forall i :: 0 <= i < |pts| ==> s[i] >= 0 && (s[i] == 0 <==> !Turns(codes, i))
      modifies `first, `list, next
      ensures Valid() && list == Corners(codes, |codes|)
    {
      hide Corners, Turns, Open;
      NothingLinked(codes);
      var current: int := -1;
      for i: nat := 0 to |pts|
        invariant Open(i) && list == Corners(codes, i) && current == At(list, |list| - 1)
      {
        CornersNext(codes, i);
        if s[i] != 0 {
          Append(i, current);
          current := i;
        } else {
          OpenWider(i);
        }
      }
      if current != -1 {
        Terminate(current);
      }
      ClosedList(codes);
    }

    lemma NothingLinked(codes: seq<Dir>)
      requires Shape() && first == -1 && list == []
      ensures Open(0) && Corners(codes, 0) == []
    {
    }

    lemma OpenWider(bound: nat)
      requires Open(bound) && bound < |pts|
      ensures Open(bound + 1)
    {
    }

    lemma ClosedList(codes: seq<Dir>)
      requires Open(|pts|) && |codes| == |pts| && list == Corners(codes, |codes|) && Links(next[..], list, |list|)
      requires forall i :: 0 <= i < |pts| ==> s[i] >= 0 && (s[i] == 0 <==> !Turns(codes, i))
      ensures Valid()
    {
      CornersAre(codes, |codes|);
    }

    method Append(i: nat, current: int)
      requires Open(i) && i < |pts| && current == At(list, |list| - 1)
      modifies `first, `list, next
      ensures Open(i + 1) && list == old(list) + [i]
    {
      if current == -1 {
        first := i;
      } else {
        next[current] := i;
      }
      AppendLinks(old(next[..]), next[..], list, i);
      list := list + [i];
    }

    method Terminate(current: nat)
      requires Open(|pts|) && list != [] && current == list[|list| - 1]
      modifies next
      ensures Open(|pts|) && Links(next[..], list, |list|)
    {
      next[current] := -1;
      TerminateLinks(old(next[..]), next[..], list);
    }

    /** Pass 1, for one point: the largest support region before the search stops.  It never
        reaches as far as the chain is long, nor half around unless it is 1. */
    method SupportRegion(i: nat) returns (region: nat)
      requires i < |pts| && |pts| >= 2
      ensures 1 <= region < |pts| && (region == 1 || 2 * region < |pts|)
      ensures Stops(pts, i, region + 1)
      ensures forall j :: 1 <= j <= region ==> !Stops(pts, i, j)
    {
      var len := |pts|;
      var l, d := 0, 0;
      var r := 1;
      while true
        invariant 1 <= r <= len && (r > 2 ==> 2 * (r - 1) < len)
        invariant r > 1 ==> l == Chord(pts, i, r - 1) && d == Area(pts, i, r - 1)
        invariant forall j :: 1 <= j < r ==> !Stops(pts, i, j)
        decreases len - r
      {
        hide Chord, Area, Stops;
        var lk, dk := Chord(pts, i, r), Area(pts, i, r);
        var turn := d * lk - dk * l;
        StopsIs(pts, i, r);
        if r > 1 && (l >= lk || (d > 0 && turn <= 0) || (d < 0 && turn >= 0)) {
          break;
        }
        if r > 1 && (2 * r == len || 2 * r == len + 1 || len == 2) {
          StopsHalfWay(pts, i, r);
        }
        d, l := dk, lk;
        r := r + 1;
      }
      region := r - 1;
    }

    /** The curvature of the cosine method. */
    method KCosine(i: nat, region: nat, cosine: (Pt, Pt, Pt) -> int) returns (curvature: int)
      requires i < |pts| && 1 <= region < |pts|
      ensures IsCosine(pts, i, region, cosine, curvature)
    {
      hide Degenerate;
      curvature := 0;
      var j := region;
      while j > 0
        invariant 0 <= j <= region
        invariant j == region ==> curvature == 0
        invariant forall x :: j < x <= region ==> !Degenerate(pts, i, x)
        invariant forall x :: j < x < region ==> CosineAt(pts, i, x, cosine) > CosineAt(pts, i, x + 1, cosine)
        invariant j < region ==> curvature == CosineAt(pts, i, j + 1, cosine)
      {
        DegenerateIs(pts, i, j);
        var p, q := pts[Behind(i, j, |pts|)], pts[Ahead(i, j, |pts|)];
        if p == pts[i] || q == pts[i] {
          break;
        }
        var sk := cosine(pts[i], p, q);
        if j < region && sk <= curvature {
          break;
        }
        curvature := sk;
        j := j - 1;
      }
      if j < region {
        assert RisesTo(pts, i, region, cosine, j + 1);
      }
    }

    method SupportOne(kcos: bool, cosine: (Pt, Pt, Pt) -> int, current: nat)
      requires Shape() && current < |pts| && |pts| >= 2 && forall p, q, r :: cosine(p, q, r) > 0
      modifies s, k
      ensures Supported(pts, k[..], current) && (kcos ==> Curved(pts, k[..], s[..], cosine, current))
      ensures forall i :: 0 <= i < |pts| && i != current ==> s[i] == old(s[i]) && k[i] == old(k[i])
      ensures !kcos ==> s[current] == old(s[current])
    {
      var region := SupportRegion(current);
      k[current] := region;
      if kcos {
        var c := KCosine(current, region, cosine);
        s[current] := c;
      }
    }

    /** Pass 1: the support region of every linked point, and with the cosine method its curvature. */
    method FindSupport(kcos: bool, cosine: (Pt, Pt, Pt) -> int)
      requires Valid() && |pts| >= 2 && forall p, q, r :: cosine(p, q, r) > 0
      modifies s, k
      ensures Valid() && list == old(list)
      ensures forall x :: 0 <= x < |list| ==> Supported(pts, k[..], list[x])
      ensures !kcos ==> s[..] == old(s[..])
      ensures kcos ==> forall x :: 0 <= x < |list| ==> Curved(pts, k[..], s[..], cosine, list[x])
    {
      var current := first;
      ghost var j := 0;
      while current != -1
        invariant j <= |list| && current == At(list, j)
        invariant Covers(s[..], list)
        invariant !kcos ==> s[..] == old(s[..])
        invariant FirstSupported(kcos, pts, k[..], s[..], cosine, list, j)
        decreases |list| - j
      {
        hide Stops, IsCosine, Supported, FirstSupported;
        assert LinkAt(next[..], list, j);
        DistinctBefore(list, j);
        hide Increasing, Links;
        ghost var s0, k0 := s[..], k[..];
        SupportOne(kcos, cosine, current);
        assert forall i :: 0 <= i < |pts| && i != current ==> s[..][i] == s0[i] && k[..][i] == k0[i];
        if kcos {
          CurvedOrDegenerate(pts, k[..], s[..], cosine, current);
        }
        CoversStill(s0, s[..], list, j);
        StillSupported(kcos, pts, k0, k[..], s0, s[..], cosine, list, j);
        current := next[current];
        j := j + 1;
      }
    }

    /** Unlink the point behind prev, which is -1 for the head of the list. */
    method Unlink(prev: int, current: nat, ghost at: nat)
      requires Shape() && first == At(list, 0) && Increasing(list) && Below(list, |pts|) &&
               Links(next[..], list, |list|)
      requires at < |list| && list[at] == current && prev == At(list, at - 1)
      modifies `first, `list, next
      ensures first == At(list, 0) && Increasing(list) && Below(list, |pts|) && Links(next[..], list, |list|)
      ensures list == Removed(old(list), at)
    {
      assert LinkAt(next[..], list, at);
      if prev == -1 {
        first := next[current];
      } else {
        next[prev] := next[current];
      }
      UnlinkLinks(old(next[..]), next[..], list, at);
      list := Removed(list, at);
    }

    /** Pass 2, for one point: does a point within half its support region have more curvature? */
    method IsDominated(i: nat, reach: nat) returns (dominated: bool)
      requires Shape() && i < |pts| && reach < |pts|
      ensures dominated <==> Dominated(s[..], i, reach)
    {
      dominated := false;
      for j := 1 to reach + 1
        invariant forall q :: 1 <= q < j ==> !Higher(s[..], i, q)
      {
        WrapsInRange(i, j, |pts|);
        assert Higher(s[..], i, j) <==> s[Behind(i, j, |pts|)] > s[i] || s[Ahead(i, j, |pts|)] > s[i];
        if s[Behind(i, j, |pts|)] > s[i] || s[Ahead(i, j, |pts|)] > s[i] {
          return true;
        }
      }
    }

    /** Clear a point and unlink it. */
    method Drop(prev: int, current: nat, ghost at: nat)
      requires Valid() && at < |list| && list[at] == current && prev == At(list, at - 1)
      modifies `first, `list, next, s
      ensures Valid() && list == Removed(old(list), at) && s[..] == old(s[..])[current := 0]
    {
      Unlink(prev, current, at);
      s[current] := 0;
      RemovedCovers(old(s[..]), s[..], old(list), at);
    }

    /** Pass 2: each point in turn is dropped exactly if one within half its region has more
        curvature; the one of most curvature stays. */
    method SuppressNonMaxima(ghost m: nat)
      requires Valid() && Peak(s[..], list, m) && ShortRegions(k[..], list)
      modifies `first, `list, next, s
      ensures Valid() && Peak(s[..], list, m) && s[m] == old(s[m])
      ensures Passed(Maxima, old(s[..]), s[..], k[..], old(list), list)
      ensures s[m] == 0 ==> list == old(list)
    {
      var prev, current := -1, first;
      ghost var at: nat := 0;
      PassBegins(Maxima, s[..], k[..], list);
      while current != -1
        invariant Valid() && at <= |list| && current == At(list, at) && prev == At(list, at - 1)
        invariant Peak(s[..], list, m) && s[m] == old(s[m])
        invariant s[m] == 0 ==> list == old(list)
        invariant ShortRegions(k[..], list)
        invariant PassedTo(Maxima, old(s[..]), s[..], k[..], old(list), list, Bound(list, at, |pts|))
        decreases |list| - at
      {
        hide PassedTo, Peak, Valid, ShortRegions;
        prev, current, at := MaximaStep(prev, current, at, m, old(list), old(s[..]));
      }
      hide PassedTo;
      PassEnds(Maxima, old(s[..]), s[..], k[..], old(list), list);
    }

    /** One point of pass 2. */
    method MaximaStep(prev: int, current: int, ghost at: nat, ghost m: nat, ghost before: seq<nat>,
                      ghost s0: seq<int>)
      returns (newPrev: int, following: int, ghost newAt: nat)
      requires Valid() && at < |list| && current == At(list, at) && prev == At(list, at - 1)
      requires Peak(s[..], list, m) && ShortRegions(k[..], list)
      requires |s0| == |pts| && PassedTo(Maxima, s0, s[..], k[..], before, list, list[at])
      modifies `first, `list, next, s
      ensures Valid() && newAt <= |list| && following == At(list, newAt) && newPrev == At(list, newAt - 1)
      ensures Peak(s[..], list, m) && s[m] == old(s[m]) && (s[m] == 0 ==> list == old(list))
      ensures ShortRegions(k[..], list)
      ensures PassedTo(Maxima, s0, s[..], k[..], before, list, Bound(list, newAt, |pts|))
      ensures |list| - newAt < old(|list|) - at
    {
      assert LinkAt(next[..], list, at);
      assert k[..][list[at]] == k[current] < |pts|;
      hide Covers, Increasing, Links, PassedTo, Dominated;
      following := next[current];
      var dominated := IsDominated(current, k[current] / 2);
      assert dominated <==> Drops(Maxima, s[..], k[..], current);
      hide Drops;
      if dominated {
        DominatedIsNoPeak(s[..], list, m, current, k[current] / 2);
        PeakStays(s[..], list, m, at);
        ShortStill(k[..], list, at);
        hide ShortRegions, Peak;
        PassDrops(Maxima, s0, s[..], k[..], before, list, at);
        newPrev, newAt := prev, at;
        Drop(prev, current, at);
      } else {
        PassKeeps(Maxima, s0, s[..], k[..], before, list, at);
        newPrev, newAt := current, at + 1;
      }
    }

    /** Pass 3: each point in turn is dropped exactly if its region is 1 and it does not exceed
        both neighbours.  Something is left exactly when some point has curvature or a larger
        region. */
    method DropShortRegions(ghost m: nat)
      requires Valid() && |pts| >= 2 && Peak(s[..], list, m)
      modifies `first, `list, next, s
      ensures Valid() && Passed(Short, old(s[..]), s[..], k[..], old(list), list)
      ensures list != [] <==> old(s[m]) > 0 || exists x :: 0 <= x < |old(list)| && k[old(list)[x]] != 1
    {
      var prev, current := -1, first;
      ghost var at: nat, peak: nat := 0, m;
      NothingDropped(s[..], k[..], list, m);
      PassBegins(Short, s[..], k[..], list);
      while current != -1
        invariant Valid() && at <= |list| && current == At(list, at) && prev == At(list, at - 1)
        invariant HalfThinned(old(list), old(s[m]), s[..], k[..], list, peak, at)
        invariant PassedTo(Short, old(s[..]), s[..], k[..], old(list), list, Bound(list, at, |pts|))
        decreases |list| - at
      {
        hide HalfThinned, Valid, PassedTo;
        prev, current, at, peak := ShortStep(prev, current, at, peak, old(list), old(s[m]), old(s[..]));
      }
      hide PassedTo;
      PassEnds(Short, old(s[..]), s[..], k[..], old(list), list);
      AnyLeft(old(list), k[..], list);
      assert old(s[m]) > 0 ==> Peak(s[..], list, peak);
    }

    /** One point of pass 3. */
    method ShortStep(prev: int, current: int, ghost at: nat, ghost peak: nat, ghost before: seq<nat>, ghost top: int,
                     ghost s0: seq<int>)
      returns (newPrev: int, following: int, ghost newAt: nat, ghost newPeak: nat)
      requires Valid() && |pts| >= 2 && at < |list| && current == At(list, at) && prev == At(list, at - 1)
      requires HalfThinned(before, top, s[..], k[..], list, peak, at)
      requires |s0| == |pts| && PassedTo(Short, s0, s[..], k[..], before, list, list[at])
      modifies `first, `list, next, s
      ensures Valid() && newAt <= |list| && following == At(list, newAt) && newPrev == At(list, newAt - 1)
      ensures HalfThinned(before, top, s[..], k[..], list, newPeak, newAt) && |list| - newAt < old(|list|) - at
      ensures PassedTo(Short, s0, s[..], k[..], before, list, Bound(list, newAt, |pts|))
    {
      hide HalfThinned, Links, Covers, Increasing, PassedTo;
      var i1, i2;
      following, i1, i2 := Neighbours(current, at);
      assert Drops(Short, s[..], k[..], current) <==> k[current] == 1 && (s[current] <= s[i1] || s[current] <= s[i2]);
      if k[current] == 1 && (s[current] <= s[i1] || s[current] <= s[i2]) {
        PassDrops(Short, s0, s[..], k[..], before, list, at);
        newPeak := DropKeeps(before, top, s[..], k[..], list, peak, at, if s[current] <= s[i1] then i1 else i2);
        newPrev, newAt := prev, at;
        Drop(prev, current, at);
      } else {
        PassKeeps(Short, s0, s[..], k[..], before, list, at);
        StayKeeps(before, top, s[..], k[..], list, peak, at, i1);
        newPrev, newAt, newPeak := current, at + 1, peak;
      }
    }

    method Neighbours(current: nat, ghost at: nat) returns (following: int, i1: nat, i2: nat)
      requires Valid() && |pts| >= 2 && at < |list| && list[at] == current
      ensures current < |pts| && following == At(list, at + 1) && i1 < |pts| && i2 < |pts| && i1 != current &&
              i2 != current
      ensures i1 == Behind(current, 1, |pts|) && i2 == Ahead(current, 1, |pts|)
    {
      assert LinkAt(next[..], list, at);
      WrapsInRange(current, 1, |pts|);
      following, i1, i2 := next[current], Behind(current, 1, |pts|), Ahead(current, 1, |pts|);
    }

    /** The points that are left. */
    method Gather() returns (points: seq<Pt>)
      requires Valid()
      ensures points == Select(pts, list)
    {
      points := [];
      var current := first;
      while current != -1
        invariant |points| <= |list| && current == At(list, |points|)
        invariant forall x :: 0 <= x < |points| ==> points[x] == pts[list[x]]
        decreases |list| - |points|
      {
        assert LinkAt(next[..], list, |points|);
        points := points + [pts[current]];
        current := next[current];
      }
    }
  }

  ghost predicate Higher(s: seq<int>, i: nat, j: int)
    requires i < |s| && 0 <= j <= |s|
  {
    WrapsInRange(i, j, |s|);
    s[Behind(i, j, |s|)] > s[i] || s[Ahead(i, j, |s|)] > s[i]
  }

  ghost predicate Dominated(s: seq<int>, i: nat, reach: nat)
    requires i < |s| && reach < |s|
  {
    exists j :: 1 <= j <= reach && Higher(s, i, j)
  }

  /** The point does not exceed both its neighbours. */
  ghost predicate Low(s: seq<int>, i: nat)
    requires i < |s|
  {
    WrapsInRange(i, 1, |s|);
    s[i] <= s[Behind(i, 1, |s|)] || s[i] <= s[Ahead(i, 1, |s|)]
  }

  /** The two passes that drop points. */
  datatype Pass = Maxima | Short

  /** What a pass drops: points with more curvature within half their region, or points of
      region 1 that do not exceed both neighbours. */
  ghost predicate Drops(pass: Pass, s: seq<int>, k: seq<nat>, i: nat)
    requires i < |s| == |k|
  {
    match pass
    case Maxima => k[i] / 2 < |s| && Dominated(s, i, k[i] / 2)
    case Short => k[i] == 1 && Low(s, i)
  }

  /** The curvature with the points cleared that were dropped in front of position bound. */
  ghost function Cleared(s: seq<int>, before: seq<nat>, kept: seq<nat>, bound: nat): (r: seq<int>)
    ensures |r| == |s|
  {
    seq(|s|, j requires 0 <= j < |s| => if j < bound && j in before && j !in kept then 0 else s[j])
  }

  /** A point is kept exactly if the pass does not drop it when its turn comes. */
  ghost predicate Decided(pass: Pass, s: seq<int>, k: seq<nat>, before: seq<nat>, kept: seq<nat>, i: nat)
    requires i < |s| == |k|
  {
    i in kept <==> !Drops(pass, Cleared(s, before, kept, i), k, i)
  }

  /** The pass has come to position bound: points in front of it are decided, the others are
      all still linked, and after holds the curvature that is left. */
  ghost predicate PassedTo(pass: Pass, s: seq<int>, after: seq<int>, k: seq<nat>, before: seq<nat>, kept: seq<nat>,
                           bound: nat) {
    && |s| == |k| && after == Cleared(s, before, kept, |s|) && (forall i :: i in kept ==> i in before)
    && (forall i :: i in before ==> i < |s| && if i < bound then Decided(pass, s, k, before, kept, i) else i in kept)
  }

  /** The whole pass, one point after the other. */
  ghost predicate Passed(pass: Pass, s: seq<int>, after: seq<int>, k: seq<nat>, before: seq<nat>, kept: seq<nat>) {
    && Thinned(before, kept) && |s| == |k| && after == Cleared(s, before, kept, |s|)
    && (forall i :: i in before ==> i < |s| && Decided(pass, s, k, before, kept, i))
  }

  /** The position the list continues with. */
  function Bound(list: seq<nat>, at: nat, n: nat): nat {
    if at < |list| then list[at] else n
  }

  lemma PassBegins(pass: Pass, s: seq<int>, k: seq<nat>, list: seq<nat>)
    requires |s| == |k| && Increasing(list) && Below(list, |s|)
    ensures PassedTo(pass, s, s, k, list, list, Bound(list, 0, |s|))
  {
    forall i | i in list
      ensures i < |s| && i >= Bound(list, 0, |s|)
    {
      var j :| 0 <= j < |list| && list[j] == i;
    }
    assert s == Cleared(s, list, list, |s|);
  }

  lemma PassEnds(pass: Pass, s: seq<int>, after: seq<int>, k: seq<nat>, before: seq<nat>, kept: seq<nat>)
    requires PassedTo(pass, s, after, k, before, kept, |s|) && Increasing(kept)
    ensures Passed(pass, s, after, k, before, kept)
  {
    hide Decided, Cleared;
  }

  lemma NothingSkipped(list: seq<nat>, at: nat, n: nat, i: nat)
    requires Increasing(list) && Below(list, n) && at < |list| && i in list
    ensures list[at] < i ==> i >= Bound(list, at + 1, n)
  {
    var j :| 0 <= j < |list| && list[j] == i;
  }

  /** Points decided do not depend on what is dropped behind them. */
  lemma StillDecided(pass: Pass, s: seq<int>, k: seq<nat>, before: seq<nat>, kept: seq<nat>, left: seq<nat>, i: nat,
                     x: nat)
    requires |s| == |k| && i < |s| && i < x && Decided(pass, s, k, before, kept, i)
    requires forall j :: j != x ==> (j in kept <==> j in left)
    ensures Decided(pass, s, k, before, left, i)
  {
    hide Drops;
    assert Cleared(s, before, kept, i) == Cleared(s, before, left, i);
  }

  lemma PassDrops(pass: Pass, s: seq<int>, after: seq<int>, k: seq<nat>, before: seq<nat>, list: seq<nat>, at: nat)
    requires at < |list| && Increasing(list) && Below(list, |s|)
    requires PassedTo(pass, s, after, k, before, list, list[at]) && Drops(pass, after, k, list[at])
    ensures var left := Removed(list, at);
      PassedTo(pass, s, after[list[at] := 0], k, before, left, Bound(left, at, |s|))
  {
    var x, left := list[at], Removed(list, at);
    hide Drops;
    forall j: nat
      ensures j != x ==> (j in list <==> j in left)
      ensures x !in left
    {
      if j in list && j != x {
        InRemoved(list, at, j);
      }
    }
    assert x in list;
    assert after[x := 0] == Cleared(s, before, left, |s|);
    assert Cleared(s, before, left, x) == after by {
      hide Decided;
    }
    assert Bound(left, at, |s|) == Bound(list, at + 1, |s|);
    forall i | i in before
      ensures if i < Bound(left, at, |s|) then Decided(pass, s, k, before, left, i) else i in left
    {
      if i < x {
        StillDecided(pass, s, k, before, list, left, i, x);
      } else if i > x {
        NothingSkipped(list, at, |s|, i);
      }
    }
  }

  lemma PassKeeps(pass: Pass, s: seq<int>, after: seq<int>, k: seq<nat>, before: seq<nat>, list: seq<nat>, at: nat)
    requires at < |list| && Increasing(list) && Below(list, |s|)
    requires PassedTo(pass, s, after, k, before, list, list[at]) && !Drops(pass, after, k, list[at])
    ensures PassedTo(pass, s, after, k, before, list, Bound(list, at + 1, |s|))
  {
    var x := list[at];
    hide Drops;
    assert x in list;
    assert Cleared(s, before, list, x) == after by {
      hide Decided;
    }
    forall i | i in before
      ensures if i < Bound(list, at + 1, |s|) then Decided(pass, s, k, before, list, i) else i in list
    {
      if i > x {
        NothingSkipped(list, at, |s|, i);
      }
    }
  }

  // ----- What the passes leave -----

  lemma ClearedFalls(s: seq<int>, before: seq<nat>, kept: seq<nat>, bound: nat, more: nat)
    requires bound <= more && forall j :: 0 <= j < |s| ==> s[j] >= 0
    ensures forall j :: 0 <= j < |s| ==> 0 <= Cleared(s, before, kept, more)[j] <= Cleared(s, before, kept, bound)[j]
    ensures forall j :: 0 <= j < |s| && j in kept ==> Cleared(s, before, kept, bound)[j] == s[j]
  {
  }

  lemma LowerStill(s: seq<int>, t: seq<int>, i: nat, j: int)
    requires |s| == |t| && i < |s| && 0 <= j <= |s| && s[i] <= t[i] && forall x :: 0 <= x < |s| ==> t[x] <= s[x]
    ensures Higher(t, i, j) ==> Higher(s, i, j)
  {
    WrapsInRange(i, j, |s|);
  }

  /** After pass 2 no point that is left has more curvature within half its region. */
  lemma NoneDominated(s: seq<int>, after: seq<int>, k: seq<nat>, before: seq<nat>, kept: seq<nat>, i: nat)
    requires Passed(Maxima, s, after, k, before, kept) && (forall j :: 0 <= j < |s| ==> s[j] >= 0)
    requires i in kept && k[i] / 2 < |s|
    ensures after[i] == s[i] && !Dominated(after, i, k[i] / 2)
  {
    assert i in before && Decided(Maxima, s, k, before, kept, i);
    var turn := Cleared(s, before, kept, i);
    ClearedFalls(s, before, kept, i, |s|);
    hide Higher, Cleared;
    assert !Dominated(turn, i, k[i] / 2);
    forall j | 1 <= j <= k[i] / 2
      ensures !Higher(after, i, j)
    {
      assert !Higher(turn, i, j);
      LowerStill(turn, after, i, j);
    }
  }

  /** And every point it drops had more curvature within half its region to begin with. */
  lemma DroppedWasDominated(s: seq<int>, after: seq<int>, k: seq<nat>, before: seq<nat>, kept: seq<nat>, i: nat)
    requires Passed(Maxima, s, after, k, before, kept) && (forall j :: 0 <= j < |s| ==> s[j] >= 0)
    requires i in before && i !in kept
    ensures k[i] / 2 < |s| && Dominated(s, i, k[i] / 2)
  {
    assert Decided(Maxima, s, k, before, kept, i);
    var turn := Cleared(s, before, kept, i);
    ClearedFalls(s, before, kept, 0, i);
    assert Cleared(s, before, kept, 0) == s && turn[i] == s[i];
    hide Higher, Cleared;
    var j :| 1 <= j <= k[i] / 2 && Higher(turn, i, j);
    LowerStill(s, turn, i, j);
  }

  /** After pass 3 every point of region 1 that is left exceeds both its neighbours, and every
      point dropped was of region 1 and did not, when pass 3 began. */
  lemma ShortLeft(s: seq<int>, after: seq<int>, k: seq<nat>, before: seq<nat>, kept: seq<nat>, i: nat)
    requires Passed(Short, s, after, k, before, kept) && (forall j :: 0 <= j < |s| ==> s[j] >= 0) && i in before
    ensures i in kept && k[i] == 1 ==> !Low(after, i)
    ensures i !in kept ==> k[i] == 1 && Low(s, i)
  {
    assert Decided(Short, s, k, before, kept, i);
    WrapsInRange(i, 1, |s|);
    ClearedFalls(s, before, kept, i, |s|);
    ClearedFalls(s, before, kept, 0, i);
    assert Cleared(s, before, kept, 0) == s && Cleared(s, before, kept, i)[i] == s[i];
  }

  /** A linked point of most curvature. */
  ghost predicate Peak(s: seq<int>, list: seq<nat>, m: nat) {
    m < |s| && m in list && forall i :: 0 <= i < |s| ==> s[i] <= s[m]
  }

  ghost predicate Flat(s: seq<int>) {
    forall i :: 0 <= i < |s| ==> s[i] == 0
  }

  /** The points with a larger region are still linked. */
  ghost predicate LongKept(before: seq<nat>, k: seq<nat>, list: seq<nat>) {
    forall x: nat :: x in before && x < |k| && k[x] != 1 ==> x in list
  }

  /** The first `count` points have a larger region. */
  ghost predicate AllLong(k: seq<nat>, list: seq<nat>, count: nat) {
    forall j :: 0 <= j < count && j < |list| && list[j] < |k| ==> k[list[j]] != 1
  }

  /** Half way through pass 3: with curvature somewhere a peak is still linked; without, the
      points passed over all have a larger region. */
  ghost predicate HalfThinned(before: seq<nat>, top: int, s: seq<int>, k: seq<nat>, list: seq<nat>, peak: nat,
                              at: nat) {
    && Thinned(before, list) && LongKept(before, k, list) && top >= 0
    && (top > 0 ==> Peak(s, list, peak) && s[peak] == top)
    && (top == 0 ==> Flat(s) && AllLong(k, list, at))
  }

  /** No region is as long as the chain. */
  ghost predicate ShortRegions(k: seq<nat>, list: seq<nat>) {
    forall x :: 0 <= x < |list| ==> list[x] < |k| && k[list[x]] < |k|
  }

  lemma ShortStill(k: seq<nat>, list: seq<nat>, at: nat)
    requires ShortRegions(k, list) && at < |list|
    ensures ShortRegions(k, Removed(list, at))
  {
  }

  lemma NothingDropped(s: seq<int>, k: seq<nat>, list: seq<nat>, m: nat)
    requires Peak(s, list, m) && Covers(s, list) && Increasing(list)
    ensures HalfThinned(list, s[m], s, k, list, m, 0)
  {
  }

  lemma DropKeeps(before: seq<nat>, top: int, s: seq<int>, k: seq<nat>, list: seq<nat>, peak: nat, at: nat,
                  neighbour: nat)
    returns (next: nat)
    requires HalfThinned(before, top, s, k, list, peak, at) && Covers(s, list)
    requires at < |list| && list[at] < |s| == |k| && neighbour < |s| && neighbour != list[at]
    requires s[list[at]] <= s[neighbour] && k[list[at]] == 1
    ensures HalfThinned(before, top, s[list[at] := 0], k, Removed(list, at), next, at)
  {
    hide Covers, Peak, Flat, AllLong, LongKept, Thinned;
    next := NextPeak(s, list, peak, at, neighbour);
    ThinnedMore(before, list, at);
    LongKeptMore(before, k, list, at);
    AllLongStays(k, list, at);
    FlatStays(s, list[at]);
  }

  lemma StayKeeps(before: seq<nat>, top: int, s: seq<int>, k: seq<nat>, list: seq<nat>, peak: nat, at: nat,
                  neighbour: nat)
    requires HalfThinned(before, top, s, k, list, peak, at)
    requires at < |list| && list[at] < |s| == |k| && neighbour < |s|
    requires k[list[at]] == 1 ==> s[list[at]] > s[neighbour]
    ensures HalfThinned(before, top, s, k, list, peak, at + 1)
  {
    hide Peak, Flat, AllLong, LongKept, Thinned;
    FlatIsEqual(s, list[at], neighbour);
    AllLongMore(k, list, at);
  }

  lemma LongKeptMore(before: seq<nat>, k: seq<nat>, list: seq<nat>, at: nat)
    requires LongKept(before, k, list) && at < |list| && list[at] < |k| && k[list[at]] == 1
    ensures LongKept(before, k, Removed(list, at))
  {
    forall x: nat | x in before && x < |k| && k[x] != 1
      ensures x in Removed(list, at)
    {
      InRemoved(list, at, x);
    }
  }

  lemma AllLongStays(k: seq<nat>, list: seq<nat>, at: nat)
    requires at < |list|
    ensures AllLong(k, list, at) ==> AllLong(k, Removed(list, at), at)
  {
  }

  lemma AllLongMore(k: seq<nat>, list: seq<nat>, at: nat)
    requires at < |list|
    ensures AllLong(k, list, at) && list[at] < |k| && k[list[at]] != 1 ==> AllLong(k, list, at + 1)
  {
  }

  lemma FlatStays(s: seq<int>, i: nat)
    requires i < |s|
    ensures Flat(s) ==> Flat(s[i := 0])
  {
  }

  lemma FlatIsEqual(s: seq<int>, i: nat, j: nat)
    requires i < |s| && j < |s|
    ensures Flat(s) ==> s[i] <= s[j]
  {
  }

  /** Without curvature exactly the points with a larger region are left. */
  lemma AnyLeft(before: seq<nat>, k: seq<nat>, list: seq<nat>)
    requires Below(before, |k|) && Thinned(before, list) && LongKept(before, k, list)
    ensures AllLong(k, list, |list|) ==> (list != [] <==> exists x :: 0 <= x < |before| && k[before[x]] != 1)
    ensures (exists x :: 0 <= x < |before| && k[before[x]] != 1) ==> list != []
  {
    if list != [] && AllLong(k, list, |list|) {
      assert list[0] in before;
      var x :| 0 <= x < |before| && before[x] == list[0];
      assert k[before[x]] != 1;
    }
    if x :| 0 <= x < |before| && k[before[x]] != 1 {
      assert before[x] in before;
    }
  }

  lemma InRemoved(list: seq<nat>, at: nat, x: nat)
    requires at < |list| && x in list && x != list[at]
    ensures x in Removed(list, at)
  {
    var j :| 0 <= j < |list| && list[j] == x;
    assert x == Removed(list, at)[if j < at then j else j - 1];
  }

  lemma RemovedCovers(before: seq<int>, after: seq<int>, list: seq<nat>, at: nat)
    requires Covers(before, list) && at < |list| && list[at] < |before| && after == before[list[at] := 0]
    ensures Covers(after, Removed(list, at))
  {
    forall i: nat | i < |after| && after[i] != 0
      ensures i in Removed(list, at)
    {
      InRemoved(list, at, i);
    }
  }

  lemma ThinnedMore(before: seq<nat>, list: seq<nat>, at: nat)
    requires Thinned(before, list) && at < |list|
    ensures Thinned(before, Removed(list, at))
  {
  }

  lemma DominatedIsNoPeak(s: seq<int>, list: seq<nat>, m: nat, i: nat, reach: nat)
    requires Peak(s, list, m) && Covers(s, list) && i < |s| && reach < |s| && Dominated(s, i, reach)
    ensures m != i && s[m] > 0
  {
    var j :| 1 <= j <= reach && Higher(s, i, j);
    WrapsInRange(i, j, |s|);
  }

  lemma PeakStays(s: seq<int>, list: seq<nat>, m: nat, at: nat)
    requires Peak(s, list, m) && Covers(s, list) && at < |list| && list[at] < |s| && m != list[at]
    ensures Peak(s[list[at] := 0], Removed(list, at), m)
  {
    InRemoved(list, at, m);
  }

  /** A dropped peak has a neighbour that is one too. */
  lemma NextPeak(s: seq<int>, list: seq<nat>, peak: nat, at: nat, neighbour: nat) returns (next: nat)
    requires Covers(s, list) && at < |list| && list[at] < |s| && neighbour < |s| && neighbour != list[at]
    requires s[list[at]] <= s[neighbour]
    ensures next != list[at]
    ensures Peak(s, list, peak) && s[peak] > 0 ==>
            Peak(s[list[at] := 0], Removed(list, at), next) && next < |s| && s[next] == s[peak]
  {
    next := if peak == list[at] then neighbour else peak;
    if Peak(s, list, peak) && s[peak] > 0 {
      assert s[next] == s[peak] && next in list;
      PeakStays(s, list, next, at);
    }
  }

  /** Pass 1 has reached position j. */
  ghost predicate FirstSupported(kcos: bool, pts: seq<Pt>, k: seq<nat>, s: seq<int>, cosine: (Pt, Pt, Pt) -> int,
                                 list: seq<nat>, j: nat) {
    forall x :: 0 <= x < j && x < |list| ==> Supported(pts, k, list[x]) && (kcos ==> Curved(pts, k, s, cosine, list[x]))
  }

  lemma StillSupported(kcos: bool, pts: seq<Pt>, k0: seq<nat>, k1: seq<nat>, s0: seq<int>, s1: seq<int>,
                       cosine: (Pt, Pt, Pt) -> int, list: seq<nat>, j: nat)
    requires j < |list| && |k0| == |k1| == |s0| == |s1| == |pts|
    requires forall i :: 0 <= i < |pts| && i != list[j] ==> s1[i] == s0[i] && k1[i] == k0[i]
    requires forall x :: 0 <= x < j ==> list[x] != list[j]
    requires FirstSupported(kcos, pts, k0, s0, cosine, list, j)
    requires Supported(pts, k1, list[j]) && (kcos ==> Curved(pts, k1, s1, cosine, list[j]))
    ensures FirstSupported(kcos, pts, k1, s1, cosine, list, j + 1)
  {
    hide Stops, IsCosine;
  }

  lemma CoversStill(before: seq<int>, after: seq<int>, list: seq<nat>, j: nat)
    requires Covers(before, list) && |after| == |before| && j < |list| && list[j] < |after| && after[list[j]] >= 0
    requires forall i :: 0 <= i < |after| && i != list[j] ==> after[i] == before[i]
    ensures Covers(after, list)
  {
  }

  lemma AppendLinks(before: seq<int>, after: seq<int>, list: seq<nat>, i: nat)
    requires Increasing(list) && Below(list, i) && i < |before|
    requires Links(before, list, if list == [] then 0 else |list| - 1)
    requires after == if list == [] then before else before[list[|list| - 1] := i]
    ensures Links(after, list + [i], |list|) && Increasing(list + [i]) && Below(list + [i], i + 1)
  {
    forall j: nat | j < |list|
      ensures LinkAt(after, list + [i], j)
    {
      if j < |list| - 1 {
        assert LinkAt(before, list, j) && list[j] < list[|list| - 1];
      }
    }
  }

  lemma TerminateLinks(before: seq<int>, after: seq<int>, list: seq<nat>)
    requires list != [] && Increasing(list) && Below(list, |before|) && Links(before, list, |list| - 1)
    requires after == before[list[|list| - 1] := -1]
    ensures Links(after, list, |list|)
  {
    forall j: nat | j < |list|
      ensures LinkAt(after, list, j)
    {
      if j < |list| - 1 {
        assert LinkAt(before, list, j) && list[j] < list[|list| - 1];
      }
    }
  }

  lemma UnlinkLinks(before: seq<int>, after: seq<int>, list: seq<nat>, at: nat)
    requires at < |list| && Increasing(list) && Below(list, |before|) && Links(before, list, |list|)
    requires after == if at == 0 then before else before[list[at - 1] := At(list, at + 1)]
    ensures Links(after, Removed(list, at), |list| - 1) && Increasing(Removed(list, at)) &&
            Below(Removed(list, at), |before|)
  {
    var t := Removed(list, at);
    forall j: nat | j < |t|
      ensures LinkAt(after, t, j)
    {
      assert LinkAt(before, list, if j < at then j else j + 1);
      assert t[j] == list[if j < at then j else j + 1];
      assert at > 0 && j != at - 1 ==> t[j] != list[at - 1];
    }
  }

  lemma CornersNext(codes: seq<Dir>, i: nat)
    requires i < |codes|
    ensures Corners(codes, i + 1) == if Turns(codes, i) then Corners(codes, i) + [i] else Corners(codes, i)
  {
  }

  lemma DistinctBefore(list: seq<nat>, j: nat)
    requires Increasing(list) && j < |list|
    ensures forall x :: 0 <= x < j ==> list[x] != list[j]
  {
  }

  lemma StopsIs(pts: seq<Pt>, i: int, k: int)
    requires 0 <= i < |pts| && 1 <= k <= |pts|
    ensures Stops(pts, i, k) <==>
      var l, lk, d := Chord(pts, i, k - 1), Chord(pts, i, k), Area(pts, i, k - 1);
      var turn := d * lk - Area(pts, i, k) * l;
      k > 1 && (l >= lk || (d > 0 && turn <= 0) || (d < 0 && turn >= 0))
  {
  }

  // ----- The whole approximation -----

  lemma {:induction false} HasGreatest(s: seq<int>, n: nat) returns (m: nat)
    requires 0 < n <= |s|
    ensures m < n && forall i :: 0 <= i < n ==> s[i] <= s[m]
  {
    if n == 1 {
      m := 0;
    } else {
      m := HasGreatest(s, n - 1);
      if s[n - 1] > s[m] {
        m := n - 1;
      }
    }
  }

  lemma HasPeak(s: seq<int>, list: seq<nat>) returns (m: nat)
    requires Covers(s, list) && list != [] && Below(list, |s|)
    ensures Peak(s, list, m)
  {
    assert list[0] < |s|;
    m := HasGreatest(s, |s|);
    if s[m] == 0 {
      m := list[0];
    }
  }

  /** Neighbours on a closed chain are different points. */
  lemma NeighboursDiffer(origin: Pt, codes: seq<Dir>, i: nat)
    requires IsClosed(origin, codes) && i < |codes|
    ensures !Degenerate(Points(origin, codes), i, 1) && |codes| >= 2
  {
    var n := |codes|;
    PointsStep(origin, codes, i);
    PointsPrefix(origin, codes, 0);
    assert codes[..n] == codes;
    PointsStep(origin, codes, n - 1);
    if i > 0 {
      PointsStep(origin, codes, i - 1);
    }
  }

  /** Support regions and curvature before the passes that drop points: the regions are those
      the search finds; the curvature is the bend, or the cosine value, and 0 off the corners. */
  ghost predicate Measured(origin: Pt, codes: seq<Dir>, kcos: bool, cosine: (Pt, Pt, Pt) -> int, s: seq<int>,
                           k: seq<nat>) {
    && |s| == |k| == |codes|
    && (forall i :: i in Corners(codes, |codes|) ==> Supported(Points(origin, codes), k, i))
    && if kcos then
         forall i: nat :: i < |codes| ==>
           if i in Corners(codes, |codes|) then Curved(Points(origin, codes), k, s, cosine, i) else s[i] == 0
       else forall i: nat :: i < |codes| ==> BendAt(codes, s, i)
  }

  /** What is left of the corners after passes 0 to 3, for either method: some of them, in
      order, and never none.  Pass 2 has decided about each corner in turn by the curvature
      then left, and pass 3 about each of the points it left. */
  method Approximate(origin: Pt, codes: seq<Dir>, kcos: bool, cosine: (Pt, Pt, Pt) -> int)
    returns (points: seq<Pt>, ghost s: seq<int>, ghost k: seq<nat>, ghost maxima: seq<nat>, ghost s2: seq<int>,
             ghost kept: seq<nat>, ghost s3: seq<int>)
    requires IsClosed(origin, codes) && forall p, q, r :: cosine(p, q, r) > 0
    ensures Measured(origin, codes, kcos, cosine, s, k)
    ensures Passed(Maxima, s, s2, k, Corners(codes, |codes|), maxima) && Passed(Short, s2, s3, k, maxima, kept)
    ensures Below(kept, |codes|) && points == Select(Points(origin, codes), kept)
    ensures points != []
  {
    hide Corners, Points, IsClosed, Turns, Supported, Curved, Covers, Peak, Thinned, Links, Increasing, Passed, Bends;
    ghost var corners := Corners(codes, |codes|);
    NonEmptyChain(origin, codes);
    NeighboursDiffer(origin, codes, 0);
    ClosedTurns(origin, codes);
    var a := new Approximator(origin, codes);
    BendsAndTurns(codes, a.s[..]);
    CornersCurve(codes, a.s[..]);
    a.FindSupport(kcos, cosine);
    RegionsShort(a.pts, a.k[..], a.list);
    ghost var m := HasPeak(a.s[..], a.list);
    PeakInRange(a.s[..], a.list, m);
    s, k := a.s[..], a.k[..];
    MeasuredIs(origin, codes, kcos, cosine, s, k, corners);
    hide Measured;
    CurvedSomewhere(origin, codes, kcos, s, k, cosine, corners, m);
    a.SuppressNonMaxima(m);
    maxima, s2 := a.list, a.s[..];
    assert a.k[..] == k;
    a.DropShortRegions(m);
    assert a.k[..] == k;
    kept, s3 := a.list, a.s[..];
    points := a.Gather();
  }

  lemma MeasuredIs(origin: Pt, codes: seq<Dir>, kcos: bool, cosine: (Pt, Pt, Pt) -> int, s: seq<int>, k: seq<nat>,
                   corners: seq<nat>)
    requires corners == Corners(codes, |codes|) && |s| == |k| == |codes| && Covers(s, corners)
    requires forall x :: 0 <= x < |corners| ==> Supported(Points(origin, codes), k, corners[x])
    requires kcos ==> forall x :: 0 <= x < |corners| ==> Curved(Points(origin, codes), k, s, cosine, corners[x])
    requires !kcos ==> forall i :: 0 <= i < |codes| ==> BendAt(codes, s, i)
    ensures Measured(origin, codes, kcos, cosine, s, k)
  {
    hide Supported, Curved, Points, Corners;
  }

  lemma CornersCurve(codes: seq<Dir>, s: seq<int>)
    requires |s| == |codes| && forall i :: 0 <= i < |s| ==> (s[i] == 0 <==> !Turns(codes, i))
    ensures forall i :: 0 <= i < |codes| && i in Corners(codes, |codes|) ==> s[i] != 0
  {
    CornersAre(codes, |codes|);
  }

  lemma RegionsShort(pts: seq<Pt>, k: seq<nat>, list: seq<nat>)
    requires |k| == |pts| && Below(list, |pts|) && forall x :: 0 <= x < |list| ==> Supported(pts, k, list[x])
    ensures ShortRegions(k, list)
  {
  }

  lemma PeakInRange(s: seq<int>, list: seq<nat>, m: nat)
    requires Peak(s, list, m) && Covers(s, list)
    ensures m < |s| && m in list && forall i :: 0 <= i < |s| ==> s[i] >= 0
  {
  }

  lemma NonEmptyChain(origin: Pt, codes: seq<Dir>)
    requires IsClosed(origin, codes)
    ensures codes != []
  {
  }

  lemma CurvedSomewhere(origin: Pt, codes: seq<Dir>, kcos: bool, s: seq<int>, k: seq<nat>,
                        cosine: (Pt, Pt, Pt) -> int, corners: seq<nat>, m: nat)
    requires forall p, q, r :: cosine(p, q, r) > 0
    requires IsClosed(origin, codes) && Peak(s, corners, m) && |s| == |k| == |codes|
    requires Below(corners, |codes|) && forall i :: 0 <= i < |s| ==> s[i] >= 0
    requires if kcos then forall x :: 0 <= x < |corners| ==> Curved(Points(origin, codes), k, s, cosine, corners[x])
             else forall i :: 0 <= i < |codes| && i in corners ==> s[i] != 0
    ensures s[m] > 0 || exists x :: 0 <= x < |corners| && k[corners[x]] != 1
  {
    var x :| 0 <= x < |corners| && corners[x] == m;
    NeighboursDiffer(origin, codes, m);
    assert kcos ==> Curved(Points(origin, codes), k, s, cosine, corners[x]);
    if kcos {
      CurvedOrDegenerate(Points(origin, codes), k, s, cosine, m);
    }
    assert s[m] == 0 ==> k[corners[x]] != 1;
  }
}
