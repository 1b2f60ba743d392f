/** The raster scan that finds where borders begin and has each of them traced.

    The scanner decides from pixel values alone whether a border has been traced before, and
    in the mode for outer contours whether it faces the outside of the image. */
module ContourScan {
  import opened PixelGrid
  import opened ContourCodes
  import opened BorderFollowing
  import opened BorderGaps
  import opened OuterBorders
  import opened TracedBorders
  import opened OuterStarts

  /** The mark that follows nbd in the modes that keep marks apart. */
  function NextMark(nbd: int): (r: int)
    requires 1 < nbd < 128
    ensures 1 < r < 128
    ensures r == nbd + 1 || (nbd == 127 && r == 3)
  {
    var n := (nbd + 1) % 128;
    n + (if n == 0 then 3 else 0)
  }

  /** The pixels the scan works on: positive, and off the frame of the image. */
  ghost function Foreground(img: array2<int>): Mask
    reads img
  {
    set x, y | 0 < x < img.Length1 - 1 && 0 < y < img.Length0 - 1 && img[y, x] > 0 :: Pt(x, y)
  }

  predicate OnFrame(img: array2<int>, x: int, y: int) {
    x == 0 || y == 0 || x == img.Length1 - 1 || y == img.Length0 - 1
  }

  /** Clear the frame of the image and make every other pixel 0 or 1. */
  method PrepareImage(img: array2<int>)
    requires img.Length0 > 0 && img.Length1 > 0
    modifies img
    ensures forall x, y :: 0 <= x < img.Length1 && 0 <= y < img.Length0 ==>
              img[y, x] == if !OnFrame(img, x, y) && old(img[y, x]) > 0 then 1 else 0
    ensures NonZero(img) == old(Foreground(img)) && ZeroFrame(img)
  {
    var w, h := img.Length1, img.Length0;
    forall x, y | 0 <= x < w && 0 <= y < h && (y == 0 || y == h - 1) {
      img[y, x] := 0;
    }
    var y := 1;
    while y < h - 1
      invariant 1 <= y
      invariant forall i, j :: 0 <= i < w && 0 <= j < h ==>
                  img[j, i] == if j == 0 || j == h - 1 || (j < y && (i == 0 || i == w - 1)) then 0 else old(img[j, i])
    {
      img[y, 0] := 0;
      img[y, w - 1] := 0;
      y := y + 1;
    }
    forall x, y | 0 <= x < w && 0 <= y < h {
      img[y, x] := if img[y, x] > 0 then 1 else 0;
    }
  }

  datatype Found = Nothing | Found(contour: Contour, isHole: bool, origin: Pt)

  class ContourScanner {
    const img: array2<int>
    const mode: int
    const approx: Approx
    const offset: Pt
    var pt: Pt
    var lnbd: Pt
    var nbd: int
    ghost var m: Mask
    ghost var starts: seq<Start>

    /** The limits of the scan: the last row and the last column are left out. */
    function Width(): int { img.Length1 - 1 }

    function Height(): int { img.Length0 - 1 }

    constructor (image: array2<int>, mode: int, approx: Approx, offset: Pt)
      requires image.Length0 > 0 && image.Length1 > 0
      modifies image
      ensures img == image && this.mode == mode && this.approx == approx && this.offset == offset
      ensures Valid() && starts == [] && pt == Pt(1, 1)
      ensures m == old(Foreground(image))
    {
      this.img, this.mode, this.approx, this.offset := image, mode, approx, offset;
      pt, lnbd, nbd := Pt(1, 1), Pt(0, 1), 2;
      starts := [];
      new;
      PrepareImage(image);
      m := NonZero(image);
      OuterBegins();
    }

    /** At the beginning of a row nothing has been met. */
    lemma RowBegins(y: int)
      requires Sound() && 0 <= y < img.Length0
      ensures LastMark(Row(y, 1), 0)
    {
      assert MarkEnds(Row(y, 1), 0, 0);
    }

    lemma OuterBegins()
      requires Sound() && starts == []
      ensures AtOuter(1, 1, Pt(0, 1))
    {
      IsFramed();
      NothingToCover(m, Width(), Height());
      if 1 < Height() {
        RowBegins(1);
      }
    }

    /** The image still has the nonzero pixels it began with, and no border was traced twice. */
    ghost predicate Sound()
      reads this, img
    {
      && img.Length0 > 0 && img.Length1 > 0
      && NonZero(img) == m && ZeroFrame(img)
      && Starts(m, starts) && AllApart(m, starts)
    }

    /** The values of the nonzero pixels tell which borders of ts have been traced. */
    ghost predicate MarksTrue(ts: seq<Start>)
      requires Starts(m, ts)
      reads this, img
    {
      forall q :: q in m && InImage(img, q) ==> TellsTruth(m, ts, q, img[q.y, q.x])
    }

    /** The scan position, and what it has moved past. */
    ghost predicate At(x: int, y: int, l: Pt)
      requires Starts(m, starts) && img.Length1 > 0
      reads this, img
    {
      && FoundBefore(starts, x, y)
      && 1 <= x && 1 <= y && (y < Height() ==> x <= Width() || x == 1)
      && l.y == y && 0 <= l.x && (y < Height() ==> l.x < x)
      && (mode != 0 ==> Covered(m, starts, Width(), x, y))
      && (mode == 0 ==> AtOuter(x, y, l))
    }

    /** The first x pixels of row y. */
    ghost function Row(y: int, x: int): (row: seq<int>)
      requires 0 <= y < img.Length0 && 0 <= x <= img.Length1
      reads img
      ensures |row| == x && forall i :: 0 <= i < x ==> row[i] == img[y, i]
    {
      seq(x, i requires 0 <= i < x reads img => img[y, i])
    }

    /** In the mode for outer contours: what the scan has moved past, and the last mark. */
    ghost predicate AtOuter(x: int, y: int, l: Pt)
      requires Starts(m, starts) && 1 <= x && 1 <= y && (y < Height() ==> x <= Width() || x == 1)
      requires img.Length1 > 0
      reads this, img
    {
      && AllOuter(m, Width(), Height(), starts) && OuterCovered(m, Width(), Height(), starts, x, y)
      && (y < Height() ==> LastMark(Row(y, x), l.x))
    }

    ghost predicate Valid()
      reads this, img
    {
      Sound() && MarksTrue(starts) && 1 < nbd < 128 && At(pt.x, pt.y, lnbd)
    }

    lemma IsFramed()
      requires Sound()
      ensures Framed(m, Width(), Height())
    {
    }

    /** What the scanner makes of column x of row y, whose west neighbour has value prev:
        whether a contour is to be traced from here, and the position of the last border met. */
    method Classify(x: int, y: int, prev: int, l: Pt) returns (start: bool, isHole: bool, l1: Pt)
      requires Sound() && At(x, y, l) && MarksTrue(starts)
      requires 1 <= x < Width() && 1 <= y < Height() && prev == img[y, x - 1]
      ensures start ==>
                var t := Start(Pt(if isHole then x - 1 else x, y), isHole);
                && IsTraceStart(m, t) && LooksNew(t, img[y, t.p.x])
                && (mode == 0 ==> OuterStart(m, Width(), Height(), t))
      ensures !start ==> At(x + 1, y, l1)
      ensures l1.y == y && 0 <= l1.x <= x
    {
      hide FoundBefore, Visited, Swept, VisitedEarly, Covered, AllApart, ZeroFrame, TellsTruth;
      var p := img[y, x];
      l1, start, isHole := l, false, false;
      if p != prev {
        isHole := !(prev == 0 && p == 1);
        if isHole && (p != 0 || prev < 1) {
          // neither an outer border nor a hole starts here
        } else {
          if isHole && prev != 0 && prev != 1 {
            l1 := Pt(x - 1, y);
          }
          start := !(mode == 0 && (isHole || img[l1.y, l1.x] > 0));
        }
        if !start {
          // the last border met, if this pixel carries a mark
          if p != 0 && p != 1 {
            l1 := Pt(x, y);
          }
        }
      }
      var q, r := Pt(x - 1, y), Pt(x, y);
      assert Nb(q, 0) == r && Nb(r, 4) == q;
      assert q in m <==> prev != 0;
      assert r in m <==> p != 0;
      FoundBeforeLater(starts, x, y, x + 1, y);
      hide LastMark, AllOuter, OuterCovered, Outside;
      if !start && mode != 0 {
        PassedOver(x, y, l);
      }
      if mode == 0 && prev == 0 {
        OuterDecides(x, y, l);
      }
      if !start && mode == 0 {
        OuterMoves(x, y, l, l1);
      }
    }

    lemma RowTells(x: int, y: int)
      requires Sound() && MarksTrue(starts) && 0 <= y < img.Length0 && 0 <= x <= img.Length1
      ensures RowTrue(m, starts, y, Row(y, x))
    {
      hide TellsTruth, AllApart, ZeroFrame, Starts;
      forall i | 0 <= i < x
        ensures PixelTrue(m, starts, Pt(i, y), img[y, i])
      {
        assert Pt(i, y) in NonZero(img) <==> img[y, i] != 0;
      }
    }

    /** The sign of the value at the last mark tells whether the zero pixel in front of column x
        is outside. */
    lemma OuterDecides(x: int, y: int, l: Pt)
      requires Sound() && At(x, y, l) && MarksTrue(starts) && mode == 0
      requires 1 <= x < Width() && 1 <= y < Height() && img[y, x - 1] == 0
      ensures img[y, l.x] > 0 <==> !Outside(m, Width(), Height(), Pt(x - 1, y))
    {
      IsFramed();
      RowTells(x, y);
      hide LastMark, AllOuter, OuterCovered, Outside, RowTrue, Framed, Sound, MarksTrue, FoundBefore;
      MarkDecides(m, Width(), Height(), starts, y, Row(y, x), l.x);
    }

    /** A pixel with the outside to its west at which nothing starts has been passed there. */
    lemma OuterPassed(x: int, y: int, l: Pt)
      requires Sound() && At(x, y, l) && MarksTrue(starts) && mode == 0
      requires 1 <= x < Width() && 1 <= y < Height()
      requires !(img[y, x - 1] == 0 && img[y, x] == 1 && img[y, l.x] <= 0)
      ensures WestGap(m, Pt(x, y)) && Outside(m, Width(), Height(), Nb(Pt(x, y), 4)) ==> Traced(m, starts, Pt(x, y), 4)
    {
      var q, r := Pt(x - 1, y), Pt(x, y);
      hide LastMark, OuterCovered, Outside, OuterStart, AllApart, ZeroFrame, TellsTruth, Starts, Traced, FoundBefore;
      assert Nb(r, 4) == q;
      if WestGap(m, r) && Outside(m, Width(), Height(), q) {
        assert r in NonZero(img) && q !in NonZero(img);
        OuterDecides(x, y, l);
        NegativeIs(m, starts, r, img[y, x]);
        IsFramed();
        VisitedIsCovered(m, Width(), Height(), starts, r);
      }
    }

    lemma RowMoves(x: int, y: int, l: int, l1: int)
      requires 1 <= x < img.Length1 && 0 <= y < img.Length0 && img[y, 0] == 0
      requires LastMark(Row(y, x), l) && Moves(img[y, x - 1], img[y, x], l, l1, x)
      ensures LastMark(Row(y, x + 1), l1)
    {
      hide LastMark;
      assert Row(y, x) + [img[y, x]] == Row(y, x + 1);
      MarkMoves(Row(y, x), l, img[y, x], l1);
    }

    /** Moving on over a pixel at which nothing starts. */
    lemma OuterMoves(x: int, y: int, l: Pt, l1: Pt)
      requires Sound() && At(x, y, l) && MarksTrue(starts) && mode == 0
      requires 1 <= x < Width() && 1 <= y < Height()
      requires !(img[y, x - 1] == 0 && img[y, x] == 1 && img[y, l.x] <= 0)
      requires Moves(img[y, x - 1], img[y, x], l.x, l1.x, x)
      ensures AtOuter(x + 1, y, l1)
    {
      OuterPassed(x, y, l);
      assert img[y, 0] == 0;
      hide LastMark, OuterCovered, Outside, AllApart, Traced, FoundBefore, MarksTrue, Moves, Row, ZeroFrame, OuterStart;
      RowMoves(x, y, l.x, l1.x);
      OuterCoverPixel(m, Width(), Height(), starts, x, y);
    }

    /** A pixel at which nothing starts is covered already. */
    lemma PassedOver(x: int, y: int, l: Pt)
      requires Sound() && At(x, y, l) && MarksTrue(starts) && mode != 0
      requires 1 <= x < Width() && 1 <= y < Height()
      requires !(img[y, x - 1] == 0 && img[y, x] == 1) && !(img[y, x - 1] >= 1 && img[y, x] == 0)
      ensures Covered(m, starts, Width(), x + 1, y)
    {
      hide FoundBefore, Visited, Swept, VisitedEarly, AllApart;
      var q, r := Pt(x - 1, y), Pt(x, y);
      assert Nb(q, 0) == r && Nb(r, 4) == q;
      assert q in m <==> img[y, x - 1] != 0;
      assert r in m <==> img[y, x] != 0;
      if r in m && Visited(m, starts, r) {
        VisitedBefore(m, starts, x, y);
      }
      CoverPixel(m, starts, Width(), x, y);
    }

    /** Trace the contour that starts at t. */
    method FetchAt(t: Start, mark: int) returns (c: Contour)
      requires Sound() && IsTraceStart(m, t) && 1 < mark < 128 && MarksTrue(starts)
      modifies img
      ensures Sound() && Starts(m, starts + [t]) && MarksTrue(starts + [t])
      ensures Records(c, m, t.p, t.isHole, Pt(t.p.x + offset.x, t.p.y + offset.y), approx)
    {
      hide TellsTruth, MarkContour, Records, AllApart;
      c := FetchContour(img, t.p, Pt(t.p.x + offset.x, t.p.y + offset.y), t.isHole, approx, mark);
      OneMoreVisited(m, starts, t, t.p);
      forall q | q in m && InImage(img, q)
        ensures TellsTruth(m, starts + [t], q, img[q.y, q.x])
      {
        assert q == Pt(q.x, q.y);
        MarksStayTrue(m, starts, t, q, old(img[q.y, q.x]), mark);
      }
    }

    /** Trace the contour that starts at t and note it. */
    method TraceFrom(t: Start, mark: int) returns (c: Contour)
      requires Sound() && IsTraceStart(m, t) && 1 < mark < 128 && MarksTrue(starts)
      requires 0 <= t.p.x < img.Length1 && 0 <= t.p.y < img.Length0 && LooksNew(t, img[t.p.y, t.p.x])
      modifies img, this`starts
      ensures starts == old(starts) + [t]
      ensures Sound() && MarksTrue(starts)
      ensures Records(c, m, t.p, t.isHole, Pt(t.p.x + offset.x, t.p.y + offset.y), approx)
    {
      hide TellsTruth, AllApart, IsStart, ZeroFrame, Records;
      NewStart(m, starts, t, img[t.p.y, t.p.x]);
      c := FetchAt(t, mark);
      starts := starts + [t];
    }

    /** A contour of a kind asked for starts at column x of row y. */
    ghost predicate StartsAt(x: int, y: int, isHole: bool)
      requires Sound()
      reads this, img
    {
      && 1 <= x < Width() && 1 <= y < Height() && FoundBefore(starts, x, y)
      && (mode != 0 ==> Covered(m, starts, Width(), x, y))
      && (mode == 0 ==> AllOuter(m, Width(), Height(), starts) && OuterCovered(m, Width(), Height(), starts, x, y))
      && var t := Start(Pt(if isHole then x - 1 else x, y), isHole);
         && IsTraceStart(m, t) && LooksNew(t, img[y, t.p.x])
         && (mode == 0 ==> OuterStart(m, Width(), Height(), t))
    }

    /** Scan the rest of row y. */
    method ScanRow(x0: int, y: int, l0: Pt) returns (found: bool, x: int, isHole: bool, l: Pt)
      requires Sound() && At(x0, y, l0) && MarksTrue(starts) && 1 <= y < Height()
      ensures x0 <= x && (found ==> StartsAt(x, y, isHole))
      ensures !found ==> Width() <= x && At(x, y, l)
    {
      hide TellsTruth, AllApart, LooksNew, IsStart, FoundBefore, LastMark, OuterStart, Outside, OuterCovered, Covered,
           AtOuter, Starts;
      x, l := x0, l0;
      found, isHole := false, false;
      var prev := img[y, x - 1];
      while x < Width()
        invariant At(x, y, l) && x0 <= x
        invariant prev == img[y, x - 1]
        decreases Width() - x
      {
        assert mode == 0 ==>
               AllOuter(m, Width(), Height(), starts) && OuterCovered(m, Width(), Height(), starts, x, y) by {
          AtOuterIs(x, y, l);
        }
        found, isHole, l := Classify(x, y, prev, l);
        if found {
          return;
        }
        prev := img[y, x];
        x := x + 1;
      }
    }

    lemma AtOuterIs(x: int, y: int, l: Pt)
      requires Sound() && At(x, y, l)
      ensures mode == 0 ==> AllOuter(m, Width(), Height(), starts) && OuterCovered(m, Width(), Height(), starts, x, y)
    {
    }

    /** Scan from (x0, y0) on until a contour starts. */
    method ScanForStart(x0: int, y0: int, l0: Pt) returns (found: bool, x: int, isHole: bool, y: int)
      requires Sound() && At(x0, y0, l0) && MarksTrue(starts)
      ensures found ==> StartsAt(x, y, isHole) && (y > y0 || (y == y0 && x >= x0))
      ensures !found && mode != 0 ==> TracesAll(m, starts)
      ensures !found && mode == 0 ==> TracesOuter(m, Width(), Height(), starts)
    {
      hide TellsTruth, AllApart, TracesAll, TracesOuter, FoundBefore, AtOuter, Covered, Starts, StartsAt;
      var l;
      x, y, l := x0, y0, l0;
      while y < Height()
        invariant At(x, y, l) && y0 <= y && (y > y0 ==> x == 1) && (y == y0 ==> x == x0)
        decreases Height() - y
      {
        found, x, isHole, l := ScanRow(x, y, l);
        if found {
          return;
        }
        RowEnds(x, y, l);
        x, y := 1, y + 1;
        l := Pt(0, y);
      }
      found, isHole := false, false;
      ScanEnds(x, y, l);
    }

    /** On to the next row. */
    lemma RowEnds(x: int, y: int, l: Pt)
      requires Sound() && At(x, y, l) && Width() <= x && 1 <= y < Height()
      ensures At(1, y + 1, Pt(0, y + 1))
    {
      IsFramed();
      hide Outside, OuterStart, Starts, FoundBefore, Covered, OuterCovered, AllApart, LastMark;
      FoundBeforeLater(starts, x, y, 1, y + 1);
      if mode != 0 {
        CoverRow(m, starts, Width(), Height(), y);
      } else {
        OuterCoverRow(m, Width(), Height(), starts, x, y);
        if y + 1 < Height() {
          RowBegins(y + 1);
        }
      }
    }

    /** Past the last row everything asked for has been found. */
    lemma ScanEnds(x: int, y: int, l: Pt)
      requires Sound() && At(x, y, l) && Height() <= y
      ensures mode != 0 ==> TracesAll(m, starts)
      ensures mode == 0 ==> TracesOuter(m, Width(), Height(), starts)
    {
      IsFramed();
      hide Outside, OuterStart, Starts, FoundBefore, Covered, OuterCovered, AllApart, LastMark, TracesAll, TracesOuter;
      if mode != 0 {
        CoverAll(m, starts, Width(), Height(), x, y);
        GapOnExactlyOneContour(m, starts, Width(), Height());
      } else {
        OuterCoverAll(m, Width(), Height(), starts, x, y);
        OuterScanFinds(m, Width(), Height(), starts);
      }
    }

    lemma StartMarked(x: int, y: int)
      requires Sound() && MarksTrue(starts) && 0 <= x < img.Length1 && 0 <= y < img.Length0
      requires |starts| > 0 && starts[|starts| - 1].p == Pt(x, y)
      ensures Marked(img[y, x])
    {
      var t := starts[|starts| - 1];
      assert t.p in m by {
        assert IsTraceStart(m, t);
      }
      hide AllApart, ZeroFrame, TellsTruth;
      LastVisited(m, starts);
      NegativeIs(m, starts, t.p, img[y, x]);
    }

    /** After an outer contour has been traced its start is the last mark. */
    lemma OuterResumes(t: Start, x: int, y: int)
      requires Sound() && MarksTrue(starts) && 1 <= x < Width() && 1 <= y < Height()
      requires |starts| > 0 && starts[|starts| - 1] == t && t.p == Pt(x, y)
      requires AllOuter(m, Width(), Height(), starts) && OuterCovered(m, Width(), Height(), starts, x + 1, y)
      ensures AtOuter(x + 1, y, t.p)
    {
      hide OuterCovered, OuterStart, LastMark, Sound, MarksTrue, Starts;
      StartMarked(x, y);
      JustMarked(Row(y, x + 1));
    }

    /** Trace the contour that starts at column x of row y, and stand behind it. */
    method TraceAt(x: int, y: int, isHole: bool) returns (c: Contour)
      requires Sound() && MarksTrue(starts) && 1 < nbd < 128 && StartsAt(x, y, isHole)
      modifies this, img
      ensures Valid() && m == old(m) && pt == Pt(x + 1, y) && y < Height()
      ensures var t := Start(Pt(if isHole then x - 1 else x, y), isHole);
        && starts == old(starts) + [t] && IsTraceStart(m, t)
        && Records(c, m, t.p, isHole, Pt(t.p.x + offset.x, t.p.y + offset.y), approx)
    {
      hide TellsTruth, AllApart, LooksNew, IsStart, ZeroFrame, Covered, Records, OuterCovered, Outside, LastMark,
           FoundBefore;
      var origin := Pt(if isHole then x - 1 else x, y);
      ghost var t := Start(origin, isHole);
      if mode != 0 {
        CoverStart(m, starts, t, Width(), x, y);
      } else {
        OuterCoverStart(m, Width(), Height(), starts, t);
      }
      FoundNow(starts, t, x, y);
      c := TraceFrom(Start(origin, isHole), if mode <= 1 then 2 else nbd);
      if mode > 1 {
        nbd := NextMark(nbd);
      }
      if mode == 0 {
        OuterResumes(t, x, y);
      }
      pt, lnbd := Pt(x + 1, y), origin;
    }

    /** Scan on until a contour starts, and trace it. */
    method FindNextContour() returns (r: Found)
      requires Valid()
      modifies this, img
      ensures Valid() && m == old(m)
      ensures r.Nothing? ==> starts == old(starts)
      ensures r.Nothing? && mode != 0 ==> TracesAll(m, starts)
      ensures r.Nothing? && mode == 0 ==> TracesOuter(m, Width(), Height(), starts)
      ensures r.Found? ==>
                && starts == old(starts) + [Start(r.origin, r.isHole)]
                && IsTraceStart(m, Start(r.origin, r.isHole))
                && Records(r.contour, m, r.origin, r.isHole, Pt(r.origin.x + offset.x, r.origin.y + offset.y), approx)
                && pt.y < Height() && (pt.y > old(pt.y) || (pt.y == old(pt.y) && pt.x > old(pt.x)))
    {
      hide TellsTruth, AllApart, Starts, ZeroFrame, Covered, Records, AtOuter, FoundBefore, TracesAll, TracesOuter,
           StartsAt;
      var found, x, isHole, y := ScanForStart(pt.x, pt.y, lnbd);
      if !found {
        return Nothing;
      }
      var c := TraceAt(x, y, isHole);
      return Found(c, isHole, Pt(if isHole then x - 1 else x, y));
    }
  }

  /** Every contour found has its own start, and they are recorded in order. */
  ghost predicate AllRecorded(found: seq<Found>, m: Mask, ts: seq<Start>, approx: Approx, offset: Pt)
    requires Starts(m, ts)
  {
    && |found| == |ts|
    && forall i :: 0 <= i < |found| ==> RecordedAt(found[i], m, ts[i], approx, offset)
  }

  ghost predicate RecordedAt(f: Found, m: Mask, t: Start, approx: Approx, offset: Pt)
    requires IsTraceStart(m, t)
  {
    && f.Found? && t == Start(f.origin, f.isHole)
    && Records(f.contour, m, t.p, t.isHole, Pt(t.p.x + offset.x, t.p.y + offset.y), approx)
  }

  lemma NoneRecorded(m: Mask, approx: Approx, offset: Pt)
    ensures Starts(m, []) && AllRecorded([], m, [], approx, offset)
  {
  }

  lemma OneMoreRecorded(found: seq<Found>, m: Mask, ts: seq<Start>, approx: Approx, offset: Pt, f: Found)
    requires Starts(m, ts) && AllRecorded(found, m, ts, approx, offset)
    requires f.Found? && IsTraceStart(m, Start(f.origin, f.isHole))
    requires RecordedAt(f, m, Start(f.origin, f.isHole), approx, offset)
    ensures Starts(m, ts + [Start(f.origin, f.isHole)])
    ensures AllRecorded(found + [f], m, ts + [Start(f.origin, f.isHole)], approx, offset)
  {
    hide Records, IsStart;
  }

  /** Find all contours of an image.  The contours have no border step in common.  Every gap of the
      image lies on exactly one of them; or, if only outer contours are asked for, every gap that
      faces the outside, and none of the others. */
  method FindContours(image: array2<int>, mode: int, approx: Approx, offset: Pt)
    returns (found: seq<Found>, count: int, ghost ts: seq<Start>)
    requires image.Length0 > 0 && image.Length1 > 0
    modifies image
    ensures Starts(old(Foreground(image)), ts) && AllApart(old(Foreground(image)), ts)
    ensures AllRecorded(found, old(Foreground(image)), ts, approx, offset)
    ensures count == |found|
    ensures mode != 0 ==> TracesAll(old(Foreground(image)), ts)
    ensures mode == 0 ==> TracesOuter(old(Foreground(image)), image.Length1 - 1, image.Length0 - 1, ts)
    ensures NonZero(image) == old(Foreground(image))
  {
    hide TellsTruth, AllApart, IsStart, ZeroFrame, Covered, Records, AllRecorded, TracesAll, TracesOuter,
         Foreground;
    var scanner := new ContourScanner(image, mode, approx, offset);
    found, count := [], 0;
    ts := [];
    NoneRecorded(scanner.m, approx, offset);
    while true
      invariant scanner.img == image && scanner.mode == mode && scanner.approx == approx && scanner.offset == offset
      invariant fresh(scanner) && scanner.Valid() && scanner.m == old(Foreground(image)) && scanner.starts == ts
      invariant count == |found| && AllRecorded(found, scanner.m, ts, approx, offset)
      decreases scanner.Height() - scanner.pt.y, scanner.Width() - scanner.pt.x
    {
      var f := scanner.FindNextContour();
      if f.Nothing? {
        break;
      }
      OneMoreRecorded(found, scanner.m, ts, approx, offset, f);
      ts := scanner.starts;
      found := found + [f];
      count := count + 1;
    }
  }
}
