/** Bilinear resizing of a byte image of interleaved channels, with a cache of two filtered rows.

    Offsets and weights are tabulated first, the weights with ten fractional bits.  The kernel
    keeps the two source rows of the last destination row, filtered horizontally, and swaps or
    reuses them when the next row needs them again. */
module BilinearResize {
  import opened Shared

  const ONE := 1024

  /** A table entry: a source index and the weight of its successor. */
  datatype Alpha = Alpha(idx: int, ialpha: int)

  // ----- The tables -----

  /** Rounding to the nearest integer, halves away from zero. */
  function Round(x: real): int {
    if x >= 0.0 then (x + 0.5).Floor else -((-x + 0.5).Floor)
  }

  /** The centre of destination place d in source coordinates. */
  function Centre(d: nat, src: nat, dst: nat): real
    requires dst > 0
  {
    (d as real + 0.5) * (src as real / dst as real) - 0.5
  }

  lemma ScaleGrows(d: nat, e: nat, scale: real)
    requires d <= e && scale >= 0.0
    ensures (d as real + 0.5) * scale <= (e as real + 0.5) * scale
  {
  }

  lemma CentreGrows(d: nat, e: nat, src: nat, dst: nat)
    requires dst > 0 && d <= e
    ensures Centre(d, src, dst) <= Centre(e, src, dst)
  {
    ScaleGrows(d, e, src as real / dst as real);
  }

  /** The last centre lies less than half a pixel behind the last pixel. */
  lemma CentreInside(d: nat, src: nat, dst: nat)
    requires d < dst
    ensures Centre(d, src, dst) < src as real - 0.5 || src == 0
    ensures -0.5 <= Centre(d, src, dst)
  {
    var s, n, c := src as real, dst as real, d as real + 0.5;
    var scale := s / n;
    assert d as real + 1.0 <= n;
    Scale(s, n, scale);
    Inside(c, n, scale, s);
    assert Centre(d, src, dst) == c * scale - 0.5;
  }

  lemma Scale(src: real, dst: real, scale: real)
    requires src >= 0.0 && dst > 0.0 && scale == src / dst
    ensures dst * scale == src && scale >= 0.0 && (src > 0.0 ==> scale > 0.0)
  {
  }

  lemma Inside(c: real, n: real, scale: real, s: real)
    requires 0.5 <= c <= n - 0.5 && scale >= 0.0 && n * scale == s
    ensures 0.0 <= c * scale && c * scale <= s - 0.5 * scale
  {
    var e := n - 0.5;
    RealMono(0.0, c, scale);
    RealMono(c, e, scale);
    Spread(e, n, scale);
  }

  lemma RealMono(x: real, y: real, r: real)
    requires x <= y && r >= 0.0
    ensures x * r <= y * r
  {
  }

  lemma Spread(e: real, n: real, r: real)
    requires e == n - 0.5
    ensures e * r == n * r - 0.5 * r
  {
  }

  /** Index and weight for a column: outside the source the border pixel alone. */
  function Column(dx: nat, sw: nat, dw: nat): (a: Alpha)
    requires sw > 0 && dw > 0
    ensures 0 <= a.idx < sw && 0 <= a.ialpha <= ONE && (a.idx == sw - 1 ==> a.ialpha == 0)
  {
    var c := Centre(dx, sw, dw);
    var sx := c.Floor;
    if sx < 0 then Alpha(0, 0)
    else if sx >= sw - 1 then Alpha(sw - 1, 0)
    else Alpha(sx, Round((c - sx as real) * ONE as real))
  }

  /** Index and weight for a row. */
  function RowEntry(dy: nat, sh: nat, dh: nat): (a: Alpha)
    requires sh > 0 && dy < dh
    ensures 0 <= a.idx < sh && 0 <= a.ialpha <= ONE
  {
    var c := Centre(dy, sh, dh);
    var sy := c.Floor;
    CentreInside(dy, sh, dh);
    if sy < 0 then Alpha(0, 0) else Alpha(sy, Round((c - sy as real) * ONE as real))
  }

  /** The entry of place d of a row: that of column d / cn, for channel d % cn. */
  function Entry(d: nat, cn: nat, sw: nat, dw: nat): Alpha
    requires cn > 0 && sw > 0 && dw > 0
  {
    var c := Column(d / cn, sw, dw);
    Alpha(c.idx * cn + d % cn, c.ialpha)
  }

  lemma EntryAt(dx: nat, k: nat, cn: nat, sw: nat, dw: nat)
    requires k < cn && sw > 0 && dw > 0
    ensures var c := Column(dx, sw, dw); Entry(dx * cn + k, cn, sw, dw) == Alpha(c.idx * cn + k, c.ialpha)
  {
    hide Column;
    DivMod(dx, k, cn);
  }

  /** Columns in front of xmax have a successor in the source, those from there on are the
      last column alone. */
  ghost predicate LastFrom(xmax: nat, upTo: nat, sw: nat, dw: nat)
    requires sw > 0 && dw > 0
  {
    && (forall dx: nat :: dx < upTo && dx < xmax ==> Column(dx, sw, dw).idx < sw - 1)
    && (forall dx: nat :: xmax <= dx < upTo ==> Column(dx, sw, dw) == Alpha(sw - 1, 0))
  }

  /** The column table, and the first column whose successor is not in the source. */
  method BuildColumns(cn: nat, sw: nat, dw: nat) returns (xofs: seq<Alpha>, xmax: nat)
    requires cn > 0 && sw > 0 && dw > 0
    ensures |xofs| == dw * cn && forall d: nat :: d < |xofs| ==> xofs[d] == Entry(d, cn, sw, dw)
    ensures xmax <= dw && LastFrom(xmax, dw, sw, dw)
  {
    hide Entry;
    xofs := [];
    xmax := dw;
    for dx: nat := 0 to dw
      invariant |xofs| == dx * cn && forall d: nat :: d < |xofs| ==> xofs[d] == Entry(d, cn, sw, dw)
      invariant (xmax == dw || xmax < dx) && LastFrom(xmax, dx, sw, dw)
      invariant xmax < dw ==> Centre(xmax, sw, dw).Floor >= sw - 1 || sw == 1
    {
      var fx := Centre(dx, sw, dw);
      var sx := fx.Floor;
      fx := fx - sx as real;
      if xmax < dw {
        CentreGrows(xmax, dx, sw, dw);
      }
      if sx < 0 {
        fx, sx := 0.0, 0;
      }
      if sx >= sw - 1 {
        fx, sx := 0.0, sw - 1;
        if xmax >= dw {
          xmax := dx;
        }
      }
      assert Column(dx, sw, dw) == Alpha(sx, Round(fx * ONE as real));
      xofs := AppendChannels(xofs, dx, sx, fx, cn, sw, dw);
    }
  }

  /** The entries of one column, a channel each. */
  method AppendChannels(old0: seq<Alpha>, dx: nat, sx: int, fx: real, cn: nat, sw: nat, dw: nat)
    returns (xofs: seq<Alpha>)
    requires cn > 0 && sw > 0 && dw > 0 && Column(dx, sw, dw) == Alpha(sx, Round(fx * ONE as real))
    requires |old0| == dx * cn && forall d: nat :: d < |old0| ==> old0[d] == Entry(d, cn, sw, dw)
    ensures |xofs| == (dx + 1) * cn && forall d: nat :: d < |xofs| ==> xofs[d] == Entry(d, cn, sw, dw)
  {
    hide Entry, Column, Round;
    xofs := old0;
    for k: nat := 0 to cn
      invariant |xofs| == dx * cn + k && forall d: nat :: d < |xofs| ==> xofs[d] == Entry(d, cn, sw, dw)
    {
      EntryAt(dx, k, cn, sw, dw);
      xofs := xofs + [Alpha(sx * cn + k, Round(fx * ONE as real))];
    }
  }

  method BuildRows(sh: nat, dh: nat) returns (yofs: seq<Alpha>)
    requires sh > 0
    ensures |yofs| == dh && forall dy: nat :: dy < dh ==> yofs[dy] == RowEntry(dy, sh, dh)
  {
    yofs := [];
    for dy: nat := 0 to dh
      invariant |yofs| == dy && forall d: nat :: d < dy ==> yofs[d] == RowEntry(d, sh, dh)
    {
      var fy := Centre(dy, sh, dh);
      var sy := fy.Floor;
      fy := fy - sy as real;
      if sy < 0 {
        sy, fy := 0, 0.0;
      }
      yofs := yofs + [Alpha(sy, Round(fy * ONE as real))];
    }
  }

  // ----- The plain formula -----

  /** A table for rows of sw and dw places, all channels counted: in front of xmax the same
      channel of the next column is in the source. */
  predicate GoodColumns(xofs: seq<Alpha>, xmax: nat, cn: nat, sw: nat, dw: nat) {
    && |xofs| == dw && xmax <= dw
    && (forall dx :: 0 <= dx < dw ==> 0 <= xofs[dx].idx < sw && 0 <= xofs[dx].ialpha <= ONE)
    && (forall dx :: 0 <= dx < xmax ==> xofs[dx].idx + cn < sw)
  }

  predicate GoodRows(yofs: seq<Alpha>, sh: nat, dh: nat) {
    |yofs| == dh && forall dy :: 0 <= dy < dh ==> 0 <= yofs[dy].idx < sh && 0 <= yofs[dy].ialpha <= ONE
  }

  /** Source row sy at destination column dx, times ONE. */
  ghost function RowAt(src: array2<int>, xofs: seq<Alpha>, xmax: nat, cn: nat, dw: nat, sy: int, dx: int): int
    requires GoodColumns(xofs, xmax, cn, src.Length1, dw) && 0 <= sy < src.Length0 && 0 <= dx < dw
    reads src
  {
    var a := xofs[dx];
    var t := src[sy, a.idx];
    if dx < xmax then ONE * t + a.ialpha * (src[sy, a.idx + cn] - t) else ONE * t
  }

  /** The row below, unless there is none or it has no weight. */
  function Below(a: Alpha, sh: nat): int {
    if a.ialpha > 0 && a.idx < sh - 1 then a.idx + 1 else a.idx
  }

  function Descale(x: int): int { (x + 524288) / 1048576 }

  /** The destination pixel, both of its source rows filtered afresh. */
  ghost function Pixel(src: array2<int>, xofs: seq<Alpha>, xmax: nat, cn: nat, dw: nat, a: Alpha, dx: int): int
    requires GoodColumns(xofs, xmax, cn, src.Length1, dw) && 0 <= a.idx < src.Length0 && 0 <= dx < dw
    reads src
  {
    var r0 := RowAt(src, xofs, xmax, cn, dw, a.idx, dx);
    var sy1 := Below(a, src.Length0);
    if sy1 == a.idx then Descale(ONE * r0)
    else Descale(ONE * r0 + a.ialpha * (RowAt(src, xofs, xmax, cn, dw, sy1, dx) - r0))
  }

  // ----- The kernel -----

  /** The buffer holds source row sy. */
  ghost predicate Holds(buf: array<int>, src: array2<int>, xofs: seq<Alpha>, xmax: nat, cn: nat, dw: nat, sy: int)
    requires GoodColumns(xofs, xmax, cn, src.Length1, dw) && 0 <= sy < src.Length0 && buf.Length >= dw
    reads buf, src
  {
    forall dx :: 0 <= dx < dw ==> buf[dx] == RowAt(src, xofs, xmax, cn, dw, sy, dx)
  }

  method FillRow(src: array2<int>, xofs: seq<Alpha>, xmax: nat, cn: nat, dw: nat, sy: int, buf: array<int>)
    requires GoodColumns(xofs, xmax, cn, src.Length1, dw) && 0 <= sy < src.Length0 && buf.Length >= dw
    modifies buf
    ensures Holds(buf, src, xofs, xmax, cn, dw, sy)
  {
    for dx := 0 to xmax
      invariant forall d :: 0 <= d < dx ==> buf[d] == RowAt(src, xofs, xmax, cn, dw, sy, d)
    {
      var sx := xofs[dx].idx;
      var t := src[sy, sx];
      buf[dx] := ONE * t + xofs[dx].ialpha * (src[sy, sx + cn] - t);
    }
    for dx := xmax to dw
      invariant forall d :: 0 <= d < dx ==> buf[d] == RowAt(src, xofs, xmax, cn, dw, sy, d)
    {
      buf[dx] := ONE * src[sy, xofs[dx].idx];
    }
  }

  method CopyRow(from: array<int>, to: array<int>, dw: nat)
    requires from != to && from.Length >= dw && to.Length >= dw
    modifies to
    ensures forall dx :: 0 <= dx < dw ==> to[dx] == from[dx]
  {
    for dx := 0 to dw
      invariant forall d :: 0 <= d < dx ==> to[d] == from[d]
    {
      to[dx] := from[dx];
    }
  }

  /** The vertical pass over one destination row. */
  method WriteRow(src: array2<int>, dst: array2<int>, dy: nat, dw: nat, xofs: seq<Alpha>, xmax: nat, cn: nat, a: Alpha,
                  buf0: array<int>, buf1: array<int>)
    requires GoodColumns(xofs, xmax, cn, src.Length1, dw) && 0 <= a.idx < src.Length0
    requires dy < dst.Length0 && dst.Length1 >= dw && dst != src && buf0.Length >= dw && buf1.Length >= dw
    requires Holds(buf0, src, xofs, xmax, cn, dw, a.idx) && Holds(buf1, src, xofs, xmax, cn, dw, Below(a, src.Length0))
    modifies dst
    ensures forall dx :: 0 <= dx < dw ==> dst[dy, dx] == Pixel(src, xofs, xmax, cn, dw, a, dx) % 256
    ensures forall y, x :: 0 <= y < dst.Length0 && y != dy && 0 <= x < dst.Length1 ==> dst[y, x] == old(dst[y, x])
  {
    hide RowAt, Descale;
    var sy0, sy1 := a.idx, Below(a, src.Length0);
    for dx := 0 to dw
      invariant forall d :: 0 <= d < dx ==> dst[dy, d] == Pixel(src, xofs, xmax, cn, dw, a, d) % 256
      invariant forall y, x :: 0 <= y < dst.Length0 && y != dy && 0 <= x < dst.Length1 ==> dst[y, x] == old(dst[y, x])
    {
      if sy0 == sy1 {
        dst[dy, dx] := Descale(ONE * buf0[dx]) % 256;
      } else {
        dst[dy, dx] := Descale(ONE * buf0[dx] + a.ialpha * (buf1[dx] - buf0[dx])) % 256;
      }
    }
  }

  /** The cache: afterwards the first buffer holds row sy0 and the second row sy1, whatever
      rows they held before. */
  method Refresh(src: array2<int>, xofs: seq<Alpha>, xmax: nat, cn: nat, dw: nat, sy0: int, sy1: int, prevSy0: int,
                 prevSy1: int,
                 old0: array<int>, old1: array<int>) returns (buf0: array<int>, buf1: array<int>)
    requires GoodColumns(xofs, xmax, cn, src.Length1, dw) && 0 <= sy0 < src.Length0 && 0 <= sy1 < src.Length0
    requires old0 != old1 && old0.Length >= dw && old1.Length >= dw
    requires 0 <= prevSy0 < src.Length0 ==> Holds(old0, src, xofs, xmax, cn, dw, prevSy0)
    requires 0 <= prevSy1 < src.Length0 ==> Holds(old1, src, xofs, xmax, cn, dw, prevSy1)
    modifies old0, old1
    ensures (buf0 == old0 && buf1 == old1) || (buf0 == old1 && buf1 == old0)
    ensures Holds(buf0, src, xofs, xmax, cn, dw, sy0) && Holds(buf1, src, xofs, xmax, cn, dw, sy1)
  {
    hide RowAt;
    buf0, buf1 := old0, old1;
    var k := 0;
    if sy0 == prevSy0 && sy1 == prevSy1 {
      k := 2;
    } else if sy0 == prevSy1 {
      buf0, buf1 := buf1, buf0;
      k := 1;
    }
    if k == 0 {
      FillRow(src, xofs, xmax, cn, dw, sy0, buf0);
    }
    if k <= 1 {
      if sy1 == sy0 {
        CopyRow(buf0, buf1, dw);
      } else {
        FillRow(src, xofs, xmax, cn, dw, sy1, buf1);
      }
    }
  }

  /** Whatever is kept from row to row, every pixel is the plain formula. */
  method Kernel(src: array2<int>, dst: array2<int>, dh: nat, dw: nat, xofs: seq<Alpha>, xmax: nat, cn: nat,
                yofs: seq<Alpha>,
                buffer0: array<int>, buffer1: array<int>)
    requires GoodColumns(xofs, xmax, cn, src.Length1, dw) && GoodRows(yofs, src.Length0, dh)
    requires dst.Length0 >= dh && dst.Length1 >= dw && dst != src
    requires buffer0 != buffer1 && buffer0.Length >= dw && buffer1.Length >= dw
    modifies dst, buffer0, buffer1
    ensures forall dy, dx :: 0 <= dy < dh && 0 <= dx < dw ==>
            dst[dy, dx] == Pixel(src, xofs, xmax, cn, dw, yofs[dy], dx) % 256
  {
    hide RowAt, Pixel, Holds, GoodColumns;
    var buf0, buf1 := buffer0, buffer1;
    var prevSy0, prevSy1 := -1, -1;
    for dy := 0 to dh
      invariant (buf0 == buffer0 && buf1 == buffer1) || (buf0 == buffer1 && buf1 == buffer0)
      invariant 0 <= prevSy0 < src.Length0 ==> Holds(buf0, src, xofs, xmax, cn, dw, prevSy0)
      invariant 0 <= prevSy1 < src.Length0 ==> Holds(buf1, src, xofs, xmax, cn, dw, prevSy1)
      invariant forall y, dx :: 0 <= y < dy && 0 <= dx < dw ==>
                dst[y, dx] == Pixel(src, xofs, xmax, cn, dw, yofs[y], dx) % 256
    {
      var sy0, sy1 := yofs[dy].idx, Below(yofs[dy], src.Length0);
      buf0, buf1 := Refresh(src, xofs, xmax, cn, dw, sy0, sy1, prevSy0, prevSy1, buf0, buf1);
      prevSy0, prevSy1 := sy0, sy1;
      WriteRow(src, dst, dy, dw, xofs, xmax, cn, yofs[dy], buf0, buf1);
    }
  }

  // ----- What the formula gives -----

  predicate Between(lo: int, x: int, hi: int) { lo <= x <= hi }

  /** A weighted mean, times ONE, lies between its two values. */
  lemma MeanBetween(t: int, u: int, a: int, lo: int, hi: int)
    requires 0 <= a <= ONE && Between(lo, t, hi) && Between(lo, u, hi)
    ensures Between(ONE * lo, ONE * t + a * (u - t), ONE * hi)
  {
    Weighted(t, u, a);
    Grows(ONE - a, lo, t);
    Grows(a, lo, u);
    Grows(ONE - a, t, hi);
    Grows(a, u, hi);
    Weighted(lo, lo, a);
    Weighted(hi, hi, a);
  }

  lemma Grows(a: int, x: int, y: int)
    requires 0 <= a && x <= y
    ensures a * x <= a * y
  {
  }

  lemma Weighted(t: int, u: int, a: int)
    ensures ONE * t + a * (u - t) == (ONE - a) * t + a * u
    ensures t == u ==> (ONE - a) * t + a * u == ONE * t
  {
  }

  /** The source samples of a destination pixel all lie between lo and hi. */
  ghost predicate SamplesBetween(src: array2<int>, xofs: seq<Alpha>, xmax: nat, cn: nat, dw: nat, sy: int, dx: int,
                                 lo: int, hi: int)
    requires GoodColumns(xofs, xmax, cn, src.Length1, dw) && 0 <= sy < src.Length0 && 0 <= dx < dw
    reads src
  {
    Between(lo, src[sy, xofs[dx].idx], hi) && (dx < xmax ==> Between(lo, src[sy, xofs[dx].idx + cn], hi))
  }

  lemma RowBetween(src: array2<int>, xofs: seq<Alpha>, xmax: nat, cn: nat, dw: nat, sy: int, dx: int, lo: int, hi: int)
    requires GoodColumns(xofs, xmax, cn, src.Length1, dw) && 0 <= sy < src.Length0 && 0 <= dx < dw
    requires SamplesBetween(src, xofs, xmax, cn, dw, sy, dx, lo, hi)
    ensures Between(ONE * lo, RowAt(src, xofs, xmax, cn, dw, sy, dx), ONE * hi)
  {
    var a := xofs[dx];
    if dx < xmax {
      MeanBetween(src[sy, a.idx], src[sy, a.idx + cn], a.ialpha, lo, hi);
    }
  }

  /** No overshoot: a destination pixel lies between the least and the greatest of its source
      samples, so of bytes it is a byte again. */
  lemma PixelBetween(src: array2<int>, xofs: seq<Alpha>, xmax: nat, cn: nat, dw: nat, a: Alpha, dx: int, lo: int,
                     hi: int)
    requires GoodColumns(xofs, xmax, cn, src.Length1, dw) && 0 <= a.idx < src.Length0 && 0 <= dx < dw &&
             0 <= a.ialpha <= ONE
    requires SamplesBetween(src, xofs, xmax, cn, dw, a.idx, dx, lo, hi)
    requires SamplesBetween(src, xofs, xmax, cn, dw, Below(a, src.Length0), dx, lo, hi)
    ensures Between(lo, Pixel(src, xofs, xmax, cn, dw, a, dx), hi)
  {
    RowBetween(src, xofs, xmax, cn, dw, a.idx, dx, lo, hi);
    RowBetween(src, xofs, xmax, cn, dw, Below(a, src.Length0), dx, lo, hi);
    var r0, r1 := RowAt(src, xofs, xmax, cn, dw, a.idx, dx), RowAt(src, xofs, xmax, cn, dw, Below(a, src.Length0), dx);
    hide RowAt;
    MeanBetween(r0, r1, a.ialpha, ONE * lo, ONE * hi);
    MeanBetween(r0, r1, 0, ONE * lo, ONE * hi);
  }

  /** The weighted mean of two neighbours in a row, the same channel of both; outside the source
      the border. */
  ghost function Neighbours(src: array2<int>, cn: nat, c: Alpha, sy: int): int
    requires 0 <= c.idx < src.Length1 && 0 <= sy < src.Length0
    reads src
  {
    var right := if c.idx + cn < src.Length1 then c.idx + cn else c.idx;
    (ONE - c.ialpha) * src[sy, c.idx] + c.ialpha * src[sy, right]
  }

  /** From xmax on the next column has no weight. */
  predicate WeightlessFrom(xofs: seq<Alpha>, xmax: nat) {
    forall d :: xmax <= d < |xofs| ==> xofs[d].ialpha == 0
  }

  /** Interpolating only in front of xmax makes no difference. */
  lemma NoLastColumn(src: array2<int>, xofs: seq<Alpha>, xmax: nat, cn: nat, dw: nat, sy: int, dx: nat)
    requires GoodColumns(xofs, xmax, cn, src.Length1, dw) && 0 <= sy < src.Length0 && dx < dw
    requires WeightlessFrom(xofs, xmax)
    ensures RowAt(src, xofs, xmax, cn, dw, sy, dx) == Neighbours(src, cn, xofs[dx], sy)
  {
    var a := xofs[dx];
    if dx < xmax {
      var t, u := src[sy, a.idx], src[sy, a.idx + cn];
      Weighted(t, u, a.ialpha);
    }
  }

  /** The whole of a resize of cn interleaved channels: tables, kernel, and for every pixel and
      channel the mean of its neighbours. */
  method Resize(src: array2<int>, sw: nat, dst: array2<int>, dw: nat, cn: nat)
    requires cn > 0 && src.Length0 > 0 && sw > 0 && Bytes(src) && dst != src
    requires src.Length1 == sw * cn && dst.Length1 == dw * cn
    modifies dst
    ensures forall dy: nat, d: nat :: dy < dst.Length0 && d < dst.Length1 ==>
      dst[dy, d] == PlainAt(src, dy, d, cn, sw, dst.Length0, dw)
    ensures Bytes(dst)
  {
    hide PlainAt;
    var dh := dst.Length0;
    if dh == 0 || dw == 0 {
      return;
    }
    var xofs, xmax := BuildColumns(cn, sw, dw);
    var yofs := BuildRows(src.Length0, dh);
    ColumnsGood(xofs, xmax, cn, sw, dw);
    RowsGood(yofs, src.Length0, dh);
    hide GoodColumns, GoodRows, Entry, RowEntry, Pixel, WeightlessFrom, LastFrom;
    var buf0, buf1 := new int[dw * cn], new int[dw * cn];
    Kernel(src, dst, dh, dw * cn, xofs, xmax * cn, cn, yofs, buf0, buf1);
    forall dy: nat, d: nat | dy < dh && d < dw * cn
      ensures 0 <= dst[dy, d] <= 255
      ensures dst[dy, d] == PlainAt(src, dy, d, cn, sw, dh, dw)
    {
      PixelIsPlain(src, xofs, xmax * cn, cn, dw * cn, yofs, dh, dy, d);
      PlainAtIs(src, dy, d, cn, sw, dh, dw, yofs[dy], xofs[d]);
    }
  }

  lemma PlaceInColumn(d: nat, cn: nat, w: nat)
    requires cn > 0 && d < w * cn
    ensures d / cn < w
  {
  }

  lemma ChannelInside(x: int, k: int, cn: nat, w: nat)
    requires 0 <= x && 0 <= k < cn
    ensures x < w ==> 0 <= x * cn + k < w * cn
    ensures x < w - 1 ==> x * cn + k + cn < w * cn
  {
    if x < w {
      assert x * cn + cn == (x + 1) * cn <= w * cn;
    }
    if x < w - 1 {
      assert x * cn + cn + cn == (x + 2) * cn <= w * cn;
    }
  }

  lemma EntryGood(d: nat, xmax: nat, cn: nat, sw: nat, dw: nat)
    requires cn > 0 && sw > 0 && dw > 0 && d < dw * cn && LastFrom(xmax, dw, sw, dw)
    ensures var a := Entry(d, cn, sw, dw);
      && 0 <= a.idx < sw * cn && 0 <= a.ialpha <= ONE
      && (d < xmax * cn ==> a.idx + cn < sw * cn)
      && (d >= xmax * cn ==> a.ialpha == 0)
  {
    hide Column;
    var dx, c := d / cn, Column(d / cn, sw, dw);
    PlaceInColumn(d, cn, dw);
    ChannelInside(c.idx, d % cn, cn, sw);
    if d < xmax * cn {
      PlaceInColumn(d, cn, xmax);
    } else {
      ColumnBehind(d, cn, xmax);
    }
  }

  lemma ColumnBehind(d: nat, cn: nat, w: nat)
    requires cn > 0 && d >= w * cn
    ensures d / cn >= w
  {
    var q := d / cn;
    assert d < q * cn + cn == (q + 1) * cn;
    if q < w {
      MulMono(q + 1, w, cn);
    }
  }

  lemma ColumnsGood(xofs: seq<Alpha>, xmax: nat, cn: nat, sw: nat, dw: nat)
    requires cn > 0 && sw > 0 && dw > 0 && xmax <= dw && LastFrom(xmax, dw, sw, dw)
    requires |xofs| == dw * cn && forall d: nat :: d < |xofs| ==> xofs[d] == Entry(d, cn, sw, dw)
    ensures GoodColumns(xofs, xmax * cn, cn, sw * cn, dw * cn) && WeightlessFrom(xofs, xmax * cn)
  {
    hide Entry, LastFrom;
    assert xmax * cn <= dw * cn;
    forall d: nat | d < dw * cn
      ensures 0 <= xofs[d].idx < sw * cn && 0 <= xofs[d].ialpha <= ONE
      ensures d < xmax * cn ==> xofs[d].idx + cn < sw * cn
      ensures d >= xmax * cn ==> xofs[d].ialpha == 0
    {
      EntryGood(d, xmax, cn, sw, dw);
    }
  }

  lemma RowsGood(yofs: seq<Alpha>, sh: nat, dh: nat)
    requires sh > 0 && |yofs| == dh && forall dy: nat :: dy < dh ==> yofs[dy] == RowEntry(dy, sh, dh)
    ensures GoodRows(yofs, sh, dh)
  {
  }

  /** Bilinear interpolation, without tables or caches: the rounded mean of two row means. */
  ghost function Plain(src: array2<int>, cn: nat, a: Alpha, c: Alpha): int
    requires 0 <= a.idx < src.Length0 && 0 <= c.idx < src.Length1
    reads src
  {
    var below := if a.idx + 1 < src.Length0 then a.idx + 1 else a.idx;
    Descale((ONE - a.ialpha) * Neighbours(src, cn, c, a.idx) + a.ialpha * Neighbours(src, cn, c, below))
  }

  /** The same at place d of row dy: column d / cn, channel d % cn. */
  ghost function PlainAt(src: array2<int>, dy: nat, d: nat, cn: nat, sw: nat, dh: nat, dw: nat): int
    requires cn > 0 && sw > 0 && src.Length0 > 0 && src.Length1 == sw * cn && dy < dh && d < dw * cn
    reads src
  {
    var x, k := d / cn, d % cn;
    PlaceInColumn(d, cn, dw);
    var c := Column(x, sw, dw);
    ChannelInside(c.idx, k, cn, sw);
    Plain(src, cn, RowEntry(dy, src.Length0, dh), Alpha(c.idx * cn + k, c.ialpha))
  }

  lemma PlainAtIs(src: array2<int>, dy: nat, d: nat, cn: nat, sw: nat, dh: nat, dw: nat, a: Alpha, c: Alpha)
    requires cn > 0 && sw > 0 && src.Length0 > 0 && src.Length1 == sw * cn && dy < dh && d < dw * cn && dw > 0
    requires a == RowEntry(dy, src.Length0, dh) && c == Entry(d, cn, sw, dw) && 0 <= c.idx < src.Length1
    ensures PlainAt(src, dy, d, cn, sw, dh, dw) == Plain(src, cn, a, c)
  {
    hide Plain, Column, RowEntry;
  }

  lemma PixelIsPlain(src: array2<int>, xofs: seq<Alpha>, xmax: nat, cn: nat, dw: nat, yofs: seq<Alpha>, dh: nat,
                     dy: nat, dx: nat)
    requires GoodColumns(xofs, xmax, cn, src.Length1, dw) && GoodRows(yofs, src.Length0, dh) && Bytes(src) && dy < dh &&
             dx < dw
    requires WeightlessFrom(xofs, xmax)
    ensures Pixel(src, xofs, xmax, cn, dw, yofs[dy], dx) == Plain(src, cn, yofs[dy], xofs[dx])
    ensures 0 <= Pixel(src, xofs, xmax, cn, dw, yofs[dy], dx) <= 255
  {
    hide RowAt, Neighbours, Descale, Bytes, WeightlessFrom;
    var a := yofs[dy];
    BytesBetween(src, xofs, xmax, cn, dw, a.idx, dx);
    BytesBetween(src, xofs, xmax, cn, dw, Below(a, src.Length0), dx);
    PixelBetween(src, xofs, xmax, cn, dw, a, dx, 0, 255);
    NoLastColumn(src, xofs, xmax, cn, dw, a.idx, dx);
    NoLastColumn(src, xofs, xmax, cn, dw, Below(a, src.Length0), dx);
    var r0, r1 := RowAt(src, xofs, xmax, cn, dw, a.idx, dx), RowAt(src, xofs, xmax, cn, dw, Below(a, src.Length0), dx);
    Weighted(r0, r1, a.ialpha);
  }

  lemma BytesBetween(src: array2<int>, xofs: seq<Alpha>, xmax: nat, cn: nat, dw: nat, sy: int, dx: int)
    requires GoodColumns(xofs, xmax, cn, src.Length1, dw) && 0 <= sy < src.Length0 && 0 <= dx < dw && Bytes(src)
    ensures SamplesBetween(src, xofs, xmax, cn, dw, sy, dx, 0, 255)
  {
  }

  // ----- Where a destination place lies in the source -----

  /** The centre of place d, in units of a pixel divided by 2 * dst. */
  function Scaled(d: nat, src: nat, dst: nat): int {
    (2 * d + 1) * src - dst
  }

  /** The entry is the one for place d: the index is the pixel the centre lies in, and the weight
      the rest of the way to its successor, to the nearest of ONE parts. */
  predicate Interpolates(a: Alpha, d: nat, src: nat, dst: nat) {
    var n: int, rest := dst, Scaled(d, src, dst) - 2 * dst * a.idx;
    0 <= rest < 2 * n && -n < 2 * n * a.ialpha - ONE * rest <= n
  }

  lemma CentreScaled(d: nat, src: nat, dst: nat)
    requires dst > 0
    ensures Centre(d, src, dst) * (2 * dst) as real == Scaled(d, src, dst) as real
  {
    var s, n, k := src as real, dst as real, d as real;
    var q := s / n;
    assert q * n == s;
    Regroup(k, q, n, s);
    assert (2 * dst) as real == 2.0 * n;
    assert ((2 * d + 1) * src) as real == (2.0 * k + 1.0) * s by {
      assert (2 * d + 1) as real == 2.0 * k + 1.0;
    }
  }

  lemma Regroup(k: real, q: real, n: real, s: real)
    requires q * n == s
    ensures ((k + 0.5) * q - 0.5) * (2.0 * n) == (2.0 * k + 1.0) * s - n
  {
    assert (k + 0.5) * q * (2.0 * n) == (2.0 * k + 1.0) * (q * n);
  }

  function Prod(x: real, y: real): real { x * y }

  /** Rounding down a quotient. */
  lemma FloorOf(c: real, r: real, n: int, t: int)
    requires n > 0 && r == n as real && c * r == t as real
    ensures n * c.Floor <= t < n * c.Floor + n
  {
    var i := c.Floor;
    var f, p := i as real, n * i;
    assert Prod(c, r) == t as real;
    hide Prod;
    Times(n, i, p, r, f);
    Bracket(f, c, r);
    FromReals(p, n, t, Prod(f, r), Prod(c, r), r);
  }

  lemma Bracket(f: real, c: real, r: real)
    requires f <= c < f + 1.0 && r > 0.0
    ensures Prod(f, r) <= Prod(c, r) < Prod(f, r) + r
  {
    hide Prod;
    var d := c - f;
    Part(d, r);
    Distribute(f, d, c, r);
  }

  lemma Part(d: real, r: real)
    requires 0.0 <= d < 1.0 && r > 0.0
    ensures 0.0 <= Prod(d, r) < r
  {
    RealLess(d, 1.0, r);
  }

  lemma Distribute(f: real, d: real, c: real, r: real)
    requires c == f + d
    ensures Prod(c, r) == Prod(f, r) + Prod(d, r)
  {
  }

  lemma FromReals(p: int, n: int, t: int, u: real, v: real, r: real)
    requires p as real == u && t as real == v && n as real == r && u <= v < u + r
    ensures p <= t < p + n
  {
  }

  lemma Times(n: int, i: int, p: int, r: real, f: real)
    requires r == n as real && f == i as real && p == n * i
    ensures p as real == Prod(f, r)
  {
  }

  lemma RealLess(x: real, y: real, r: real)
    requires x < y && r > 0.0
    ensures x * r < y * r
  {
  }

  /** The weight that is stored. */
  lemma WeightOf(c: real, r: real, n: int, t: int)
    requires n > 0 && r == n as real && c * r == t as real
    ensures var rest, w := t - n * c.Floor, Round((c - c.Floor as real) * ONE as real);
      -n < 2 * n * w - 2 * ONE * rest <= n
  {
    var i := c.Floor;
    var f, p := i as real, n * i;
    var g := (c - f) * ONE as real;
    var target := 2 * ONE * (t - p) + n;
    Times(n, i, p, r, f);
    Fraction(c, f, r, g);
    assert (g + 0.5) * (2.0 * r) == target as real;
    FloorOf(g + 0.5, 2.0 * r, 2 * n, target);
    var w := Round(g);
    assert w == (g + 0.5).Floor;
    WeightIs(n, w, t - p, target);
  }

  lemma Fraction(c: real, f: real, r: real, g: real)
    requires g == (c - f) * 1024.0
    ensures (g + 0.5) * (2.0 * r) == 2048.0 * (c * r) - 2048.0 * (f * r) + r
  {
  }

  lemma WeightIs(n: int, w: int, rest: int, target: int)
    requires target == 2 * ONE * rest + n && (2 * n) * w <= target < (2 * n) * w + 2 * n
    ensures -n < 2 * n * w - 2 * ONE * rest <= n
  {
  }

  lemma CentreInterpolates(d: nat, src: nat, dst: nat)
    requires dst > 0
    ensures var c := Centre(d, src, dst);
      Interpolates(Alpha(c.Floor, Round((c - c.Floor as real) * ONE as real)), d, src, dst)
  {
    var c, n, t := Centre(d, src, dst), 2 * dst, Scaled(d, src, dst);
    CentreScaled(d, src, dst);
    hide Centre, Scaled, Round;
    FloorOf(c, n as real, n, t);
    WeightOf(c, n as real, n, t);
  }

  /** Centres left of the first pixel, or at the last one or behind it. */
  lemma FloorSide(d: nat, src: nat, dst: nat)
    requires dst > 0
    ensures var f, t := Centre(d, src, dst).Floor, Scaled(d, src, dst);
      (f < 0 <==> t < 0) && (f >= src - 1 <==> t >= 2 * dst * (src - 1))
  {
    var c, n, t := Centre(d, src, dst), 2 * dst, Scaled(d, src, dst);
    CentreScaled(d, src, dst);
    hide Centre, Scaled;
    FloorOf(c, n as real, n, t);
    FloorAtLeast(c.Floor, n, t, 0);
    FloorAtLeast(c.Floor, n, t, src - 1);
  }

  lemma FloorAtLeast(f: int, n: int, t: int, k: int)
    requires n > 0 && n * f <= t < n * f + n
    ensures f >= k <==> t >= n * k
  {
    if f >= k {
      MulMono(k, f, n);
    } else {
      MulMono(f + 1, k, n);
    }
  }

  /** What the column table says: in front of the first pixel the first alone, from the last on
      the last alone, and in between the two neighbours in proportion. */
  lemma ColumnExactly(dx: nat, sw: nat, dw: nat)
    requires sw > 0 && dw > 0
    ensures var a, t := Column(dx, sw, dw), Scaled(dx, sw, dw);
      if t < 0 then a == Alpha(0, 0)
      else if t >= 2 * dw * (sw - 1) then a == Alpha(sw - 1, 0)
      else Interpolates(a, dx, sw, dw)
  {
    FloorSide(dx, sw, dw);
    CentreInterpolates(dx, sw, dw);
    hide Centre, Scaled, Round, Interpolates;
  }

  /** The row table does the same but for the last pixel, which has no row below. */
  lemma RowExactly(dy: nat, sh: nat, dh: nat)
    requires sh > 0 && dy < dh
    ensures var a := RowEntry(dy, sh, dh);
      if Scaled(dy, sh, dh) < 0 then a == Alpha(0, 0) else Interpolates(a, dy, sh, dh)
  {
    FloorSide(dy, sh, dh);
    CentreInterpolates(dy, sh, dh);
    hide Centre, Scaled, Round, Interpolates;
  }

  // ----- What a resize keeps -----

  /** The centre of place d, moved into the source if it lies outside. */
  function Position(d: nat, src: nat, dst: nat): int
    requires src > 0
  {
    var t := Scaled(d, src, dst);
    if t < 0 then 0 else if t >= 2 * dst * (src - 1) then 2 * dst * (src - 1) else t
  }

  /** How far an entry reaches, in units of a pixel divided by ONE; the last pixel has no
      successor. */
  function Reach(a: Alpha, src: nat): int {
    ONE * a.idx + (if a.idx + 1 < src then a.ialpha else 0)
  }

  /** The entry reaches to the position, to the nearest unit. */
  predicate Reaches(a: Alpha, d: nat, src: nat, dst: nat)
    requires src > 0
  {
    var n: int := dst;
    -n <= 2 * n * Reach(a, src) - ONE * Position(d, src, dst) <= n
  }

  lemma InterpolatesReaches(a: Alpha, d: nat, src: nat, dst: nat)
    requires src > 0 && dst > 0 && Interpolates(a, d, src, dst) && 0 <= a.idx < src
    ensures Reaches(a, d, src, dst)
  {
    var n, t := 2 * dst, Scaled(d, src, dst);
    hide Scaled;
    FloorAtLeast(a.idx, n, t, src - 1);
    FloorAtLeast(a.idx, n, t, 0);
    assert n * 0 == 0;
    if a.idx + 1 < src {
      assert Position(d, src, dst) == t;
      assert n * (ONE * a.idx + a.ialpha) == ONE * (n * a.idx) + n * a.ialpha;
    } else {
      assert a.idx == src - 1;
      assert n * (ONE * a.idx) == ONE * (n * a.idx);
    }
  }

  lemma ColumnReaches(dx: nat, sw: nat, dw: nat)
    requires sw > 0 && dw > 0
    ensures Reaches(Column(dx, sw, dw), dx, sw, dw)
  {
    ColumnExactly(dx, sw, dw);
    var a, t := Column(dx, sw, dw), Scaled(dx, sw, dw);
    assert 0 <= a.idx < sw;
    hide Scaled, Column;
    if 0 <= t < 2 * dw * (sw - 1) {
      InterpolatesReaches(a, dx, sw, dw);
    } else if t >= 0 {
      assert 2 * dw * (ONE * (sw - 1)) == ONE * (2 * dw * (sw - 1));
    } else {
      assert 2 * dw * 0 == 0;
    }
  }

  lemma RowReaches(dy: nat, sh: nat, dh: nat)
    requires sh > 0 && dy < dh
    ensures Reaches(RowEntry(dy, sh, dh), dy, sh, dh)
  {
    RowExactly(dy, sh, dh);
    var a, t := RowEntry(dy, sh, dh), Scaled(dy, sh, dh);
    assert 0 <= a.idx < sh;
    hide Scaled, RowEntry;
    if t >= 0 {
      InterpolatesReaches(a, dy, sh, dh);
    } else {
      assert 2 * dh * 0 == 0;
    }
  }

  /** Channel k of the image is a ramp: it grows by q from column to column and by r from row
      to row. */
  ghost predicate IsRamp(src: array2<int>, cn: nat, k: nat, p: int, q: int, r: int)
    reads src
  {
    forall y: nat, x: nat :: y < src.Length0 && x * cn + k < src.Length1 ==> OnRamp(src, cn, k, p, q, r, y, x)
  }

  ghost predicate OnRamp(src: array2<int>, cn: nat, k: nat, p: int, q: int, r: int, y: nat, x: nat)
    requires y < src.Length0 && x * cn + k < src.Length1
    reads src
  {
    src[y, x * cn + k] == p + q * x + r * y
  }

  lemma MeanOfRamp(t: int, q: int, a: int)
    ensures (ONE - a) * t + a * (t + q) == ONE * t + q * a
    ensures (ONE - a) * t + a * t == ONE * t
  {
    assert a * (t + q) == a * t + a * q;
    assert (ONE - a) * t == ONE * t - a * t;
  }

  lemma NeighboursOfRamp(src: array2<int>, cn: nat, k: nat, sw: nat, p: int, q: int, r: int, c: Alpha, sy: nat)
    requires cn > 0 && k < cn && src.Length1 == sw * cn && 0 <= c.idx < sw && sy < src.Length0
    requires IsRamp(src, cn, k, p, q, r) && (c.idx == sw - 1 ==> c.ialpha == 0)
    ensures 0 <= c.idx * cn + k < src.Length1
    ensures Neighbours(src, cn, Alpha(c.idx * cn + k, c.ialpha), sy) == ONE * (p + r * sy) + q * Reach(c, sw)
  {
    ChannelInside(c.idx, k, cn, sw);
    var t := src[sy, c.idx * cn + k];
    assert OnRamp(src, cn, k, p, q, r, sy, c.idx);
    assert ONE * t == ONE * (p + r * sy) + q * (ONE * c.idx);
    MeanOfRamp(t, q, c.ialpha);
    if c.idx + 1 < sw {
      assert (c.idx + 1) * cn + k == c.idx * cn + k + cn;
      assert OnRamp(src, cn, k, p, q, r, sy, c.idx + 1);
      assert q * (c.idx + 1) == q * c.idx + q;
      assert q * Reach(c, sw) == q * (ONE * c.idx) + q * c.ialpha;
    } else {
      assert c.ialpha == 0;
    }
  }

  lemma PlainOfRamp(src: array2<int>, cn: nat, k: nat, sw: nat, p: int, q: int, r: int, a: Alpha, c: Alpha)
    requires cn > 0 && k < cn && src.Length1 == sw * cn && 0 <= c.idx < sw && 0 <= a.idx < src.Length0
    requires IsRamp(src, cn, k, p, q, r) && (c.idx == sw - 1 ==> c.ialpha == 0)
    ensures 0 <= c.idx * cn + k < src.Length1
    ensures Plain(src, cn, a, Alpha(c.idx * cn + k, c.ialpha)) ==
            Descale(ONE * (ONE * p + q * Reach(c, sw) + r * Reach(a, src.Length0)))
  {
    var cc := Alpha(c.idx * cn + k, c.ialpha);
    var below := if a.idx + 1 < src.Length0 then a.idx + 1 else a.idx;
    NeighboursOfRamp(src, cn, k, sw, p, q, r, c, a.idx);
    NeighboursOfRamp(src, cn, k, sw, p, q, r, c, below);
    hide Neighbours, IsRamp, Descale;
    var u, v := Neighbours(src, cn, cc, a.idx), Neighbours(src, cn, cc, below);
    RowsOfRamp(p, q * Reach(c, sw), r, a, src.Length0, u, v);
  }

  lemma RowsOfRamp(p: int, e: int, r: int, a: Alpha, h: nat, u: int, v: int)
    requires u == ONE * (p + r * a.idx) + e
    requires v == ONE * (p + r * (if a.idx + 1 < h then a.idx + 1 else a.idx)) + e
    ensures (ONE - a.ialpha) * u + a.ialpha * v == ONE * (ONE * p + e + r * Reach(a, h))
  {
    if a.idx + 1 < h {
      NextRow(r, a.idx);
      assert v == u + ONE * r;
      MeanOfRamp(u, ONE * r, a.ialpha);
      Reached(r, a.idx, a.ialpha);
    } else {
      MeanOfRamp(u, 0, a.ialpha);
      Reached(r, a.idx, 0);
    }
  }

  lemma NextRow(r: int, y: int)
    ensures r * (y + 1) == r * y + r
  {
  }

  lemma Reached(r: int, y: int, w: int)
    ensures r * (ONE * y + w) == ONE * (r * y) + r * w && (ONE * r) * w == ONE * (r * w)
  {
  }

  function Abs(x: int): int { if x >= 0 then x else -x }

  /** A slope times an error of at most n stays within the slope times n. */
  lemma ErrorTimes(q: int, e: int, n: int)
    requires -n <= e <= n
    ensures -(Abs(q) * n) <= q * e <= Abs(q) * n
  {
    if q >= 0 {
      MulMono(-n, e, q);
      MulMono(e, n, q);
    } else {
      MulMono(-n, e, -q);
      MulMono(e, n, -q);
    }
  }

  /** A ramp stays one: every place gets the value of the ramp at the centre of the place, to
      half a unit and half a part in ONE of the slopes.  All in units of 1 / (2 * dw * dh). */
  lemma RampKept(src: array2<int>, dy: nat, d: nat, cn: nat, sw: nat, dh: nat, dw: nat, p: int, q: int, r: int)
    requires cn > 0 && sw > 0 && src.Length0 > 0 && src.Length1 == sw * cn && dy < dh && d < dw * cn && dw > 0
    requires IsRamp(src, cn, d % cn, p, q, r)
    ensures var x, y, n := Position(d / cn, sw, dw), Position(dy, src.Length0, dh), dw * dh;
      var v, e := 2 * n * p + dh * (q * x) + dw * (r * y), n * (Abs(q) + Abs(r));
      -e - ONE * n <= ONE * (2 * n * PlainAt(src, dy, d, cn, sw, dh, dw) - v) <= e + ONE * n
  {
    var dx, k := d / cn, d % cn;
    PlaceInColumn(d, cn, dw);
    var a, c := RowEntry(dy, src.Length0, dh), Column(dx, sw, dw);
    ColumnReaches(dx, sw, dw);
    RowReaches(dy, src.Length0, dh);
    PlainOfRamp(src, cn, k, sw, p, q, r, a, c);
    var x, y := Position(dx, sw, dw), Position(dy, src.Length0, dh);
    var f, g := Reach(c, sw), Reach(a, src.Length0);
    var pixel := PlainAt(src, dy, d, cn, sw, dh, dw);
    assert pixel == Descale(ONE * (ONE * p + q * f + r * g));
    hide PlainAt, Plain, Column, RowEntry, Position, Reach, IsRamp;
    RampError(p, q, r, f, g, x, y, dw, dh, pixel);
  }

  lemma RampError(p: int, q: int, r: int, f: int, g: int, x: int, y: int, dw: int, dh: int, pixel: int)
    requires dw > 0 && dh > 0
    requires -dw <= 2 * dw * f - ONE * x <= dw && -dh <= 2 * dh * g - ONE * y <= dh
    requires pixel == Descale(ONE * (ONE * p + q * f + r * g))
    ensures var n := dw * dh;
      var v, e := 2 * n * p + dh * (q * x) + dw * (r * y), n * (Abs(q) + Abs(r));
      -e - ONE * n <= ONE * (2 * n * pixel - v) <= e + ONE * n
  {
    var n, s := dw * dh, ONE * p + q * f + r * g;
    var ex, ey := 2 * dw * f - ONE * x, 2 * dh * g - ONE * y;
    ErrorTimes(q, ex, dw);
    ErrorTimes(r, ey, dh);
    var aq, ar := Abs(q), Abs(r);
    assert -(ONE / 2) <= ONE * pixel - s <= ONE / 2;
    hide Abs, Descale;
    Expand(q, f, x, ex, dw, dh);
    Expand(r, g, y, ey, dh, dw);
    MulMono(-(ONE / 2), ONE * pixel - s, 2 * n);
    MulMono(ONE * pixel - s, ONE / 2, 2 * n);
    MulMono(q * ex, aq * dw, dh);
    MulMono(-(aq * dw), q * ex, dh);
    MulMono(r * ey, ar * dh, dw);
    MulMono(-(ar * dh), r * ey, dw);
    Collect(p, q * f, r * g, n, s, pixel);
    Areas(aq, ar, dw, dh, n);
  }

  lemma Expand(q: int, f: int, x: int, e: int, dw: int, dh: int)
    requires e == 2 * dw * f - ONE * x
    ensures q * e * dh == 2 * (dw * dh) * (q * f) - ONE * (dh * (q * x))
  {
    assert q * e == 2 * dw * (q * f) - ONE * (q * x);
    assert (2 * dw * (q * f)) * dh == 2 * (dw * dh) * (q * f);
  }

  lemma Collect(p: int, a: int, b: int, n: int, s: int, pixel: int)
    requires s == ONE * p + a + b
    ensures (ONE * pixel - s) * (2 * n) == ONE * (2 * n * pixel) - ONE * (2 * n * p) - 2 * n * a - 2 * n * b
  {
  }

  lemma Areas(aq: int, ar: int, dw: int, dh: int, n: int)
    requires n == dw * dh
    ensures aq * dw * dh == n * aq && ar * dh * dw == n * ar && n * (aq + ar) == n * aq + n * ar
    ensures (aq * dw) * dh == n * aq && (-(aq * dw)) * dh == -(n * aq)
    ensures (ar * dh) * dw == n * ar && (-(ar * dh)) * dw == -(n * ar)
  {
  }

  /** A place whose centre falls on a source pixel gets that pixel. */
  lemma OnPixel(src: array2<int>, dy: nat, d: nat, cn: nat, sw: nat, dh: nat, dw: nat, y: nat, x: nat)
    requires cn > 0 && sw > 0 && src.Length0 > 0 && src.Length1 == sw * cn && dy < dh && d < dw * cn && dw > 0
    requires Position(d / cn, sw, dw) == 2 * dw * x && Position(dy, src.Length0, dh) == 2 * dh * y
    requires x < sw && y < src.Length0
    ensures x * cn + d % cn < src.Length1
    ensures PlainAt(src, dy, d, cn, sw, dh, dw) == src[y, x * cn + d % cn]
  {
    var dx, k := d / cn, d % cn;
    PlaceInColumn(d, cn, dw);
    ChannelInside(x, k, cn, sw);
    var a, c := RowEntry(dy, src.Length0, dh), Column(dx, sw, dw);
    ColumnReaches(dx, sw, dw);
    RowReaches(dy, src.Length0, dh);
    assert 0 <= c.ialpha <= ONE && 0 <= a.ialpha <= ONE && 0 <= c.idx < sw && 0 <= a.idx < src.Length0;
    hide Column, RowEntry, Position, Scaled;
    ReachesPixel(c, dx, sw, dw, x);
    ReachesPixel(a, dy, src.Length0, dh, y);
    ChannelInside(c.idx, k, cn, sw);
    WholePixel(src, cn, k, sw, a, c, y, x);
  }

  lemma ReachesPixel(a: Alpha, d: nat, src: nat, dst: nat, x: nat)
    requires src > 0 && dst > 0 && Reaches(a, d, src, dst) && Position(d, src, dst) == 2 * dst * x && x < src
    ensures Reach(a, src) == ONE * x
  {
    hide Reach, Position;
    var r, n := Reach(a, src), 2 * dst;
    SameReach(r, n, x);
  }

  lemma SameReach(r: int, n: int, x: int)
    requires n > 0 && -n < n * r - ONE * (n * x) < n
    ensures r == ONE * x
  {
    var e := r - ONE * x;
    assert e * n == n * r - ONE * (n * x);
    SmallMultiple(e, n);
  }

  lemma WholePixel(src: array2<int>, cn: nat, k: nat, sw: nat, a: Alpha, c: Alpha, y: nat, x: nat)
    requires cn > 0 && k < cn && src.Length1 == sw * cn && x < sw && y < src.Length0
    requires 0 <= c.idx < sw && 0 <= a.idx < src.Length0 && 0 <= c.ialpha <= ONE && 0 <= a.ialpha <= ONE
    requires Reach(c, sw) == ONE * x && Reach(a, src.Length0) == ONE * y
    requires 0 <= c.idx * cn + k < src.Length1 && x * cn + k < src.Length1
    ensures Plain(src, cn, a, Alpha(c.idx * cn + k, c.ialpha)) == src[y, x * cn + k]
  {
    WholeStep(c, sw, x);
    WholeStep(a, src.Length0, y);
    var below := if a.idx + 1 < src.Length0 then a.idx + 1 else a.idx;
    WholeNeighbour(src, cn, k, sw, c, a.idx, x);
    WholeNeighbour(src, cn, k, sw, c, below, x);
    MeanOfRamp(ONE * src[y, x * cn + k], 0, a.ialpha);
  }

  /** Reaching to a pixel means that pixel alone, or its predecessor with all the weight on it. */
  lemma WholeStep(a: Alpha, src: nat, x: nat)
    requires 0 <= a.idx < src && 0 <= a.ialpha <= ONE && Reach(a, src) == ONE * x
    ensures (a.idx == x && (a.idx + 1 < src ==> a.ialpha == 0)) || (a.idx + 1 == x && x < src && a.ialpha == ONE)
  {
  }

  lemma WholeNeighbour(src: array2<int>, cn: nat, k: nat, sw: nat, c: Alpha, sy: nat, x: nat)
    requires cn > 0 && k < cn && src.Length1 == sw * cn && sy < src.Length0 && 0 <= c.idx < sw && x < sw
    requires 0 <= c.idx * cn + k < src.Length1 && x * cn + k < src.Length1
    requires (c.idx == x && (c.idx + 1 < sw ==> c.ialpha == 0)) || (c.idx + 1 == x && c.ialpha == ONE)
    ensures Neighbours(src, cn, Alpha(c.idx * cn + k, c.ialpha), sy) == ONE * src[sy, x * cn + k]
  {
    if c.idx + 1 == x {
      assert x * cn + k == c.idx * cn + k + cn;
    } else if c.idx + 1 == sw {
      assert (c.idx + 1) * cn == c.idx * cn + cn == src.Length1;
      MeanOfRamp(src[sy, x * cn + k], 0, c.ialpha);
    }
  }
}
