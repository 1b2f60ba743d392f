/** Gaussian pyramids over ring buffers of filtered rows.

    Down-sampling keeps six filtered rows, up-sampling three; a row pointer wraps around at the
    end of the buffer.  Both are proved equal to the direct separable filter 1-4-6-4-1 with the
    image mirrored at its borders, the border row not repeated.  Images of bytes, of one or of
    three interleaved channels. */
module Pyramid {
  import opened Shared

  // ----- The filter -----

  function Taps(a: int, b: int, c: int, d: int, e: int): int {
    a + 4 * b + 6 * c + 4 * d + e
  }

  function Binomial(n: nat, k: int): nat {
    if k < 0 || k > n then 0 else if n == 0 then 1 else Binomial(n - 1, k - 1) + Binomial(n - 1, k)
  }

  /** The weights are those of adding neighbours four times over. */
  lemma TapsAreBinomial(a: int, b: int, c: int, d: int, e: int)
    ensures Taps(a, b, c, d, e) ==
            Binomial(4, 0) * a + Binomial(4, 1) * b + Binomial(4, 2) * c + Binomial(4, 3) * d + Binomial(4, 4) * e
  {
    assert Binomial(2, 0) == 1 && Binomial(2, 1) == 2 && Binomial(2, 2) == 1;
    assert Binomial(3, 0) == 1 && Binomial(3, 1) == 3 && Binomial(3, 2) == 3 && Binomial(3, 3) == 1;
    assert Binomial(4, 0) == 1 && Binomial(4, 1) == 4 && Binomial(4, 2) == 6 && Binomial(4, 3) == 4;
    assert Binomial(4, 4) == 1;
  }

  /** Reflection at 0 and at n - 1; good for up to two places outside. */
  function Mirror(i: int, n: nat): (m: int)
    requires n >= 2 && -2 <= i <= n + 1
    ensures 0 <= m < n && (m - i) % 2 == 0
    ensures 0 <= i < n ==> m == i
  {
    var j := if i < 0 then -i else i;
    var k := if j >= n then 2 * (n - 1) - j else j;
    if k < 0 then -k else k
  }

  // ----- Channels -----

  type Channels = c: nat | c == 1 || c == 3 witness 1

  /** The place of channel c of pixel i in a row. */
  function Place(i: int, c: int, cn: Channels): int {
    if cn == 3 then 3 * i + c else i + c
  }

  /** How many places n pixels take. */
  function Places(n: nat, cn: Channels): nat {
    if cn == 3 then 3 * n else n
  }

  /** Pixel and channel of a place. */
  function PixelOf(p: int, cn: Channels): int {
    if cn == 3 then p / 3 else p
  }

  function ChannelOf(p: int, cn: Channels): (c: int)
    ensures 0 <= c < cn
  {
    if cn == 3 then p % 3 else 0
  }

  lemma PlaceOf(i: int, c: int, cn: Channels)
    requires 0 <= c < cn
    ensures PixelOf(Place(i, c, cn), cn) == i && ChannelOf(Place(i, c, cn), cn) == c
  {
  }

  // ----- The border formulas of the kernels -----

  function Common(x0: int, x1: int, x2: int, x3: int, x4: int): int { x2 * 6 + (x1 + x3) * 4 + x0 + x4 }

  function LeftTop(x0: int, x1: int, x2: int): int { x0 * 6 + x1 * 8 + x2 * 2 }

  function RightBottom(x0: int, x1: int, x2: int, x3: int): int { x0 + (x1 + x3) * 4 + x2 * 7 }

  function Singular(x0: int, x1: int): int { (x0 + x1) * 8 }

  function UpCommon(x0: int, x1: int, x2: int): int { x1 * 6 + x0 + x2 }

  function UpBetween(x0: int, x1: int): int { (x0 + x1) * 4 }

  function UpLeftTop(x0: int, x1: int): int { x0 * 6 + x1 * 2 }

  function UpRightBottom(x0: int, x1: int): int { x0 + x1 * 7 }

  function UpLast(x0: int): int { x0 * 8 }

  /** Rounding, then the conversion to a byte. */
  function ScaleDown(x: int): int { ((x + 128) / 256) % 256 }

  function ScaleUp(x: int): int { ((x + 32) / 64) % 256 }

  // ----- Down-sampling, directly -----

  /** Rows of an even number of pixels. */
  predicate Even(src: array2<int>, cn: Channels, w: nat) {
    src.Length1 >= Places(w, cn) && w >= 2 && w % 2 == 0
  }

  /** The place of the same channel j pixels from pixel 2x, mirrored at the border. */
  function Near(p: int, j: int, cn: Channels, w: nat): (q: int)
    requires w >= 2 && w % 2 == 0 && 0 <= p < Places(w / 2, cn) && -2 <= j <= 2
    ensures 0 <= q < Places(w, cn)
  {
    Place(Mirror(2 * PixelOf(p, cn) + j, w), ChannelOf(p, cn), cn)
  }

  /** Row r filtered, at place x of the smaller row. */
  ghost function DownRow(src: array2<int>, cn: Channels, w: nat, r: int, x: int): int
    requires Even(src, cn, w) && 0 <= r < src.Length0 && 0 <= x < Places(w / 2, cn)
    reads src
  {
    Taps(src[r, Near(x, -2, cn, w)], src[r, Near(x, -1, cn, w)], src[r, Near(x, 0, cn, w)], src[r, Near(x, 1, cn, w)],
         src[r, Near(x, 2, cn, w)])
  }

  /** The filter around row 2y at place x of the smaller row, rows first. */
  ghost function Down(src: array2<int>, cn: Channels, h: nat, w: nat, y: int, x: int): int
    requires src.Length0 >= h >= 2 && Even(src, cn, w) && 0 <= 2 * y < h && 0 <= x < Places(w / 2, cn)
    reads src
  {
    Taps(DownRow(src, cn, w, Mirror(2 * y - 2, h), x), DownRow(src, cn, w, Mirror(2 * y - 1, h), x),
        DownRow(src, cn, w, 2 * y, x),
         DownRow(src, cn, w, Mirror(2 * y + 1, h), x), DownRow(src, cn, w, Mirror(2 * y + 2, h), x))
  }

  /** The rounded mean of bytes is a byte, so nothing is lost in the conversion. */
  lemma DownIsByte(src: array2<int>, cn: Channels, h: nat, w: nat, y: int, x: int)
    requires src.Length0 >= h >= 2 && Even(src, cn, w) && 0 <= 2 * y < h && 0 <= x < Places(w / 2, cn) && Bytes(src)
    ensures 0 <= (Down(src, cn, h, w, y, x) + 128) / 256 <= 255
    ensures ScaleDown(Down(src, cn, h, w, y, x)) == (Down(src, cn, h, w, y, x) + 128) / 256
  {
    hide DownRow, Taps, Mirror, ScaleDown, Bytes;
    DownRowRange(src, cn, w, Mirror(2 * y - 2, h), x);
    DownRowRange(src, cn, w, Mirror(2 * y - 1, h), x);
    DownRowRange(src, cn, w, 2 * y, x);
    DownRowRange(src, cn, w, Mirror(2 * y + 1, h), x);
    DownRowRange(src, cn, w, Mirror(2 * y + 2, h), x);
    TapsRange(DownRow(src, cn, w, Mirror(2 * y - 2, h), x), DownRow(src, cn, w, Mirror(2 * y - 1, h), x),
              DownRow(src, cn, w, 2 * y, x), DownRow(src, cn, w, Mirror(2 * y + 1, h), x),
              DownRow(src, cn, w, Mirror(2 * y + 2, h), x), 16 * 255);
    RoundedByte(Down(src, cn, h, w, y, x));
  }

  lemma TapsRange(a: int, b: int, c: int, d: int, e: int, hi: int)
    requires 0 <= a <= hi && 0 <= b <= hi && 0 <= c <= hi && 0 <= d <= hi && 0 <= e <= hi
    ensures 0 <= Taps(a, b, c, d, e) <= 16 * hi
  {
  }

  lemma RoundedByte(x: int)
    requires 0 <= x <= 256 * 255
    ensures 0 <= (x + 128) / 256 <= 255 && ScaleDown(x) == (x + 128) / 256
  {
  }

  lemma DownRowRange(src: array2<int>, cn: Channels, w: nat, r: int, x: int)
    requires Even(src, cn, w) && 0 <= r < src.Length0 && 0 <= x < Places(w / 2, cn) && Bytes(src)
    ensures 0 <= DownRow(src, cn, w, r, x) <= 16 * 255
  {
  }

  // ----- Down-sampling with the ring -----

  /** A slot of the ring holds source row r, filtered. */
  ghost predicate HoldsDown(buffer: array2<int>, slot: nat, src: array2<int>, cn: Channels, w: nat, r: int)
    requires Even(src, cn, w) && 0 <= r < src.Length0 && slot < buffer.Length0 && buffer.Length1 >= Places(w / 2, cn)
    reads buffer, src
  {
    forall x :: 0 <= x < Places(w / 2, cn) ==> buffer[slot, x] == DownRow(src, cn, w, r, x)
  }

  /** The four formulas of the kernel are the mirrored filter. */
  lemma DownRowCases(src: array2<int>, cn: Channels, w: nat, r: int, x: int, c: int)
    requires Even(src, cn, w) && 0 <= r < src.Length0 && 0 <= x < w / 2 && 0 <= c < cn
    ensures DownRow(src, cn, w, r, Place(x, c, cn)) ==
      if w == 2 then Singular(src[r, Place(0, c, cn)], src[r, Place(1, c, cn)])
      else if x == 0 then LeftTop(src[r, Place(0, c, cn)], src[r, Place(1, c, cn)], src[r, Place(2, c, cn)])
      else if x == w / 2 - 1 then
        RightBottom(src[r, Place(w - 4, c, cn)], src[r, Place(w - 3, c, cn)], src[r, Place(w - 2, c, cn)],
            src[r, Place(w - 1, c, cn)])
      else Common(src[r, Place(2 * x - 2, c, cn)], src[r, Place(2 * x - 1, c, cn)], src[r, Place(2 * x, c, cn)],
                  src[r, Place(2 * x + 1, c, cn)], src[r, Place(2 * x + 2, c, cn)])
  {
    hide Place, Mirror;
    DownRowAt(src, cn, w, r, x, c);
    MirrorsDown(x, w);
  }

  /** The mirrored neighbours of pixel 2x. */
  lemma MirrorsDown(x: int, w: nat)
    requires w >= 2 && w % 2 == 0 && 0 <= x < w / 2
    ensures Mirror(2 * x - 2, w) == (if x > 0 then 2 * x - 2 else if w == 2 then 0 else 2)
    ensures Mirror(2 * x - 1, w) == (if x > 0 then 2 * x - 1 else 1)
    ensures Mirror(2 * x, w) == 2 * x && Mirror(2 * x + 1, w) == 2 * x + 1
    ensures Mirror(2 * x + 2, w) == (if 2 * x + 2 < w then 2 * x + 2 else w - 2)
  {
  }

  lemma NearAt(x: int, c: int, j: int, cn: Channels, w: nat)
    requires w >= 2 && w % 2 == 0 && 0 <= x < w / 2 && 0 <= c < cn && -2 <= j <= 2
    ensures 0 <= Place(x, c, cn) < Places(w / 2, cn)
    ensures Near(Place(x, c, cn), j, cn, w) == Place(Mirror(2 * x + j, w), c, cn)
  {
    hide Mirror;
    PlaceOf(x, c, cn);
  }

  lemma DownRowAt(src: array2<int>, cn: Channels, w: nat, r: int, x: int, c: int)
    requires Even(src, cn, w) && 0 <= r < src.Length0 && 0 <= x < w / 2 && 0 <= c < cn
    ensures 0 <= Place(x, c, cn) < Places(w / 2, cn)
    ensures DownRow(src, cn, w, r, Place(x, c, cn)) ==
      Taps(src[r, Place(Mirror(2 * x - 2, w), c, cn)], src[r, Place(Mirror(2 * x - 1, w), c, cn)],
          src[r, Place(Mirror(2 * x, w), c, cn)],
           src[r, Place(Mirror(2 * x + 1, w), c, cn)], src[r, Place(Mirror(2 * x + 2, w), c, cn)])
  {
    hide Mirror, Near, Taps;
    NearAt(x, c, -2, cn, w);
    NearAt(x, c, -1, cn, w);
    NearAt(x, c, 0, cn, w);
    NearAt(x, c, 1, cn, w);
    NearAt(x, c, 2, cn, w);
  }

  /** Filter one source row into a slot. */
  method FilterRowDown(src: array2<int>, cn: Channels, w: nat, r: nat, buffer: array2<int>, slot: nat)
    requires Even(src, cn, w) && r < src.Length0
    requires slot < buffer.Length0 && buffer.Length1 >= Places(w / 2, cn) && buffer != src
    modifies buffer
    ensures HoldsDown(buffer, slot, src, cn, w, r)
    ensures forall s, x :: 0 <= s < buffer.Length0 && s != slot && 0 <= x < buffer.Length1 ==>
            buffer[s, x] == old(buffer[s, x])
  {
    if cn == 1 {
      FilterRowDown1(src, w, r, buffer, slot);
    } else {
      FilterRowDown3(src, w, r, buffer, slot);
    }
  }

  method FilterRowDown1(src: array2<int>, w: nat, r: nat, buffer: array2<int>, slot: nat)
    requires Even(src, 1, w) && r < src.Length0
    requires slot < buffer.Length0 && buffer.Length1 >= w / 2 && buffer != src
    modifies buffer
    ensures HoldsDown(buffer, slot, src, 1, w, r)
    ensures forall s, x :: 0 <= s < buffer.Length0 && s != slot && 0 <= x < buffer.Length1 ==>
            buffer[s, x] == old(buffer[s, x])
  {
    hide DownRow;
    var wd := w / 2;
    DownRowCases(src, 1, w, r, 0, 0);
    if w > 2 {
      buffer[slot, 0] := LeftTop(src[r, 0], src[r, 1], src[r, 2]);
      buffer[slot, wd - 1] := RightBottom(src[r, wd * 2 - 4], src[r, wd * 2 - 3], src[r, wd * 2 - 2],
          src[r, wd * 2 - 1]);
      DownRowCases(src, 1, w, r, wd - 1, 0);
      for x := 1 to wd - 1
        invariant buffer[slot, wd - 1] == DownRow(src, 1, w, r, wd - 1)
        invariant forall z :: 0 <= z < x ==> buffer[slot, z] == DownRow(src, 1, w, r, z)
        invariant forall s, z :: 0 <= s < buffer.Length0 && s != slot && 0 <= z < buffer.Length1 ==>
                  buffer[s, z] == old(buffer[s, z])
      {
        buffer[slot, x] := Common(src[r, 2 * x - 2], src[r, 2 * x - 1], src[r, 2 * x], src[r, 2 * x + 1],
            src[r, 2 * x + 2]);
        DownRowCases(src, 1, w, r, x, 0);
      }
    } else {
      buffer[slot, 0] := Singular(src[r, 0], src[r, 1]);
    }
  }

  /** The places x to x + 2 of the smaller row. */
  method DownThree(src: array2<int>, w: nat, r: nat, buffer: array2<int>, slot: nat, x: nat)
    requires Even(src, 3, w) && r < src.Length0 && slot < buffer.Length0 && buffer.Length1 >= Places(w / 2, 3) &&
             buffer != src
    requires 3 <= x < w / 2 * 3 - 3 && x % 3 == 0
    modifies buffer
    ensures forall z :: x <= z < x + 3 ==> buffer[slot, z] == DownRow(src, 3, w, r, z)
    ensures forall s, z :: 0 <= s < buffer.Length0 && 0 <= z < buffer.Length1 && !(s == slot && x <= z < x + 3) ==>
              buffer[s, z] == old(buffer[s, z])
  {
    hide DownRow, Common;
    buffer[slot, x] := Common(src[r, 2 * x - 6], src[r, 2 * x - 3], src[r, 2 * x], src[r, 2 * x + 3],
        src[r, 2 * x + 6]);
    buffer[slot, x + 1] := Common(src[r, 2 * x - 5], src[r, 2 * x - 2], src[r, 2 * x + 1], src[r, 2 * x + 4],
        src[r, 2 * x + 7]);
    buffer[slot, x + 2] := Common(src[r, 2 * x - 4], src[r, 2 * x - 1], src[r, 2 * x + 2], src[r, 2 * x + 5],
        src[r, 2 * x + 8]);
    ghost var i := x / 3;
    DownRowCases(src, 3, w, r, i, 0);
    DownRowCases(src, 3, w, r, i, 1);
    DownRowCases(src, 3, w, r, i, 2);
  }

  /** The same for three channels: the borders of each, then three places at a time. */
  method FilterRowDown3(src: array2<int>, w: nat, r: nat, buffer: array2<int>, slot: nat)
    requires Even(src, 3, w) && r < src.Length0
    requires slot < buffer.Length0 && buffer.Length1 >= Places(w / 2, 3) && buffer != src
    modifies buffer
    ensures HoldsDown(buffer, slot, src, 3, w, r)
    ensures forall s, x :: 0 <= s < buffer.Length0 && s != slot && 0 <= x < buffer.Length1 ==>
            buffer[s, x] == old(buffer[s, x])
  {
    hide DownRow;
    var wdn := w / 2 * 3;
    if w > 2 {
      DownBorders3(src, w, r, buffer, slot, wdn);
      var x := 3;
      while x < wdn - 3
        invariant 3 <= x <= wdn - 3 && x % 3 == 0
        invariant forall z :: wdn - 3 <= z < wdn ==> buffer[slot, z] == DownRow(src, 3, w, r, z)
        invariant forall z :: 0 <= z < x ==> buffer[slot, z] == DownRow(src, 3, w, r, z)
        invariant forall s, z :: 0 <= s < buffer.Length0 && s != slot && 0 <= z < buffer.Length1 ==>
                  buffer[s, z] == old(buffer[s, z])
      {
        DownThree(src, w, r, buffer, slot, x);
        x := x + 3;
      }
    } else {
      buffer[slot, 0] := Singular(src[r, 0], src[r, 3]);
      buffer[slot, 1] := Singular(src[r, 1], src[r, 4]);
      buffer[slot, 2] := Singular(src[r, 2], src[r, 5]);
      DownRowCases(src, 3, w, r, 0, 0);
      DownRowCases(src, 3, w, r, 0, 1);
      DownRowCases(src, 3, w, r, 0, 2);
    }
  }

  method DownBorders3(src: array2<int>, w: nat, r: nat, buffer: array2<int>, slot: nat, wdn: nat)
    requires Even(src, 3, w) && w > 2 && r < src.Length0 && wdn == w / 2 * 3
    requires slot < buffer.Length0 && buffer.Length1 >= Places(w / 2, 3) && buffer != src
    modifies buffer
    ensures forall z :: 0 <= z < 3 || wdn - 3 <= z < wdn ==> buffer[slot, z] == DownRow(src, 3, w, r, z)
    ensures forall s, x :: 0 <= s < buffer.Length0 && s != slot && 0 <= x < buffer.Length1 ==>
            buffer[s, x] == old(buffer[s, x])
  {
    hide DownRow;
    for c := 0 to 3
      invariant forall z :: 0 <= z < c || wdn - 3 <= z < wdn - 3 + c ==> buffer[slot, z] == DownRow(src, 3, w, r, z)
      invariant forall s, x :: 0 <= s < buffer.Length0 && s != slot && 0 <= x < buffer.Length1 ==>
                buffer[s, x] == old(buffer[s, x])
    {
      DownRowCases(src, 3, w, r, 0, c);
      DownRowCases(src, 3, w, r, w / 2 - 1, c);
      buffer[slot, c] := LeftTop(src[r, c], src[r, 3 + c], src[r, 6 + c]);
      buffer[slot, wdn - 3 + c] :=
        RightBottom(src[r, wdn * 2 - 12 + c], src[r, wdn * 2 - 9 + c], src[r, wdn * 2 - 6 + c],
            src[r, wdn * 2 - 3 + c]);
    }
  }

  /** The slots of consecutive rows from `top` on, in a ring of `size`. */
  method AssignRows(top: nat, count: nat, size: nat) returns (rows: seq<nat>)
    requires top < size && count <= size && (size == 6 || size == 3)
    ensures |rows| == count && forall j :: 0 <= j < count ==> rows[j] == (top + j) % size
  {
    rows := [];
    var k := top;
    for j: nat := 0 to count
      invariant |rows| == j && k == (top + j) % size && forall i :: 0 <= i < j ==> rows[i] == (top + i) % size
    {
      rows := rows + [k];
      k := k + 1;
      k := if k < size then k else 0;
    }
  }

  /** The same in the vertical: the filter in terms of filtered rows. */
  lemma DownCases(src: array2<int>, cn: Channels, h: nat, w: nat, y: nat, out: nat, x: int)
    requires src.Length0 >= h >= 2 && h % 2 == 0 && Even(src, cn, w) && y == 2 * out && y < h &&
             0 <= x < Places(w / 2, cn)
    ensures Down(src, cn, h, w, out, x) ==
      if h == 2 then Singular(DownRow(src, cn, w, 0, x), DownRow(src, cn, w, 1, x))
      else if y == 0 then LeftTop(DownRow(src, cn, w, 0, x), DownRow(src, cn, w, 1, x), DownRow(src, cn, w, 2, x))
      else if y == h - 2 then
        RightBottom(DownRow(src, cn, w, y - 2, x), DownRow(src, cn, w, y - 1, x), DownRow(src, cn, w, y, x),
            DownRow(src, cn, w, y + 1, x))
      else Common(DownRow(src, cn, w, y - 2, x), DownRow(src, cn, w, y - 1, x), DownRow(src, cn, w, y, x),
          DownRow(src, cn, w, y + 1, x),
                  DownRow(src, cn, w, y + 2, x))
  {
    hide DownRow;
  }

  /** The slot of a source row. */
  function Slot(r: int): (s: nat)
    ensures s < 6
  {
    r % 6
  }

  /** A row at an even slot and the next one lie next to each other. */
  lemma SlotNext(r: nat, half: nat)
    requires r == 2 * half
    ensures Slot(r) + 1 == Slot(r + 1)
  {
    var q := r / 6;
    assert Slot(r) == 2 * (half - 3 * q);
    assert r + 1 == 6 * q + (Slot(r) + 1);
  }

  lemma SlotsApart(r: int, q: int)
    requires r < q < r + 6
    ensures Slot(r) != Slot(q)
  {
  }

  lemma SlotsFrom(lo: nat, top: nat, rows: seq<nat>)
    requires top == Slot(lo) && |rows| == 5 && forall j :: 0 <= j < 5 ==> rows[j] == (top + j) % 6
    ensures forall j :: 0 <= j < 5 ==> rows[j] == Slot(lo + j)
  {
  }

  /** Source rows lo up to hi are in the ring, each in the slot of its number. */
  ghost predicate RingDown(buffer: array2<int>, src: array2<int>, cn: Channels, w: nat, lo: int, hi: int)
    requires Even(src, cn, w) && 0 <= lo && hi <= src.Length0 && buffer.Length0 == 6 &&
             buffer.Length1 >= Places(w / 2, cn)
    reads buffer, src
  {
    forall r :: lo <= r < hi ==> HoldsDown(buffer, Slot(r), src, cn, w, r)
  }

  /** The vertical pass over one row of the result. */
  method VerticalDown(src: array2<int>, cn: Channels, h: nat, w: nat, buffer: array2<int>, row01: nat, row23: nat,
                      row4: nat,
                      dst: array2<int>, y: nat, out: nat)
    requires src.Length0 >= h >= 2 && h % 2 == 0 && Even(src, cn, w) && y == 2 * out && y < h
    requires dst.Length0 >= h / 2 && dst.Length1 >= Places(w / 2, cn) && buffer.Length0 == 6 &&
             buffer.Length1 >= Places(w / 2, cn)
    requires dst != src && dst != buffer
    requires var top := if y == 0 then 0 else y - 2;
      && row01 == Slot(top) && row23 == Slot(top + 2) && row4 == Slot(top + 4)
      && RingDown(buffer, src, cn, w, top, if y + 3 < h then y + 3 else h)
    modifies dst
    ensures forall x :: 0 <= x < Places(w / 2, cn) ==> dst[out, x] == ScaleDown(Down(src, cn, h, w, out, x))
    ensures forall v, x :: 0 <= v < dst.Length0 && v != out && 0 <= x < dst.Length1 ==> dst[v, x] == old(dst[v, x])
  {
    hide Slot, DownRow, Down, ScaleDown, Common, RightBottom, LeftTop, Singular;
    ghost var top := if y == 0 then 0 else y - 2;
    assert HoldsDown(buffer, Slot(top), src, cn, w, top) && HoldsDown(buffer, Slot(top + 1), src, cn, w, top + 1);
    assert h > 2 ==> HoldsDown(buffer, Slot(top + 2), src, cn, w, top + 2);
    assert y > 0 ==> HoldsDown(buffer, Slot(top + 3), src, cn, w, top + 3);
    assert y > 0 && y < h - 2 ==> HoldsDown(buffer, Slot(top + 4), src, cn, w, top + 4);
    SlotNext(top, if y == 0 then 0 else out - 1);
    SlotNext(top + 2, if y == 0 then 1 else out);
    for x := 0 to Places(w / 2, cn)
      invariant forall z :: 0 <= z < x ==> dst[out, z] == ScaleDown(Down(src, cn, h, w, out, z))
      invariant forall v, z :: 0 <= v < dst.Length0 && v != out && 0 <= z < dst.Length1 ==> dst[v, z] == old(dst[v, z])
    {
      DownCases(src, cn, h, w, y, out, x);
      if y > 0 {
        if y < h - 2 {
          dst[out, x] := ScaleDown(Common(buffer[row01, x], buffer[row01 + 1, x], buffer[row23, x],
              buffer[row23 + 1, x], buffer[row4, x]));
        } else {
          dst[out, x] := ScaleDown(RightBottom(buffer[row01, x], buffer[row01 + 1, x], buffer[row23, x],
              buffer[row23 + 1, x]));
        }
      } else {
        if h > 2 {
          dst[out, x] := ScaleDown(LeftTop(buffer[row01, x], buffer[row01 + 1, x], buffer[row23, x]));
        } else {
          dst[out, x] := ScaleDown(Singular(buffer[row01, x], buffer[row01 + 1, x]));
        }
      }
    }
  }

  /** Fill slots fst up to lst with the next source rows. */
  method FillDown(src: array2<int>, cn: Channels, w: nat, buffer: array2<int>, rows: seq<nat>, fst: nat, lst: nat,
                  srcRow: nat,
                  ghost lo: nat)
    requires Even(src, cn, w) && buffer.Length0 == 6 && buffer.Length1 >= Places(w / 2, cn) && buffer != src
    requires |rows| == 5 && fst <= lst <= 5 && srcRow + (lst - fst) <= src.Length0
    requires forall j :: 0 <= j < 5 ==> rows[j] == Slot(lo + j)
    requires srcRow == lo + fst && RingDown(buffer, src, cn, w, lo, srcRow)
    modifies buffer
    ensures RingDown(buffer, src, cn, w, lo, lo + lst)
  {
    hide Slot, DownRow;
    var next := srcRow;
    for y1 := fst to lst
      invariant next == lo + y1 && RingDown(buffer, src, cn, w, lo, next)
    {
      label Before:
      FilterRowDown(src, cn, w, next, buffer, rows[y1]);
      forall r | lo <= r < next
        ensures HoldsDown(buffer, Slot(r), src, cn, w, r)
      {
        assert old@Before(HoldsDown(buffer, Slot(r), src, cn, w, r));
        SlotsApart(r, next);
      }
      next := next + 1;
    }
  }

  lemma RingDownPart(buffer: array2<int>, src: array2<int>, cn: Channels, w: nat, lo: int, hi: int, from: int)
    requires Even(src, cn, w) && 0 <= lo <= from && hi <= src.Length0
    requires buffer.Length0 == 6 && buffer.Length1 >= Places(w / 2, cn) && RingDown(buffer, src, cn, w, lo, hi)
    ensures RingDown(buffer, src, cn, w, from, hi)
  {
  }

  lemma RingDownEmpty(buffer: array2<int>, src: array2<int>, cn: Channels, w: nat)
    requires Even(src, cn, w) && buffer.Length0 == 6 && buffer.Length1 >= Places(w / 2, cn)
    ensures RingDown(buffer, src, cn, w, 0, 0) && Slot(0) == 0
  {
  }

  /** Two rows further in the ring. */
  function AdvanceDown(topRow: nat): nat {
    if topRow + 2 < 6 then topRow + 2 else 0
  }

  lemma AdvancesDown(y: nat, half: nat)
    requires y >= 2 && y == 2 * half
    ensures AdvanceDown(Slot(y - 2)) == Slot(y)
  {
    var q, m := (half - 1) / 3, (half - 1) % 3;
    SlotIs(y - 2, q, 2 * m);
    if m < 2 {
      SlotIs(y, q, 2 * m + 2);
    } else {
      SlotIs(y, q + 1, 0);
    }
  }

  lemma SlotIs(r: int, q: int, s: nat)
    requires r == 6 * q + s && s < 6
    ensures Slot(r) == s
  {
  }

  /** One row of the result: fill the ring, then filter down its columns. */
  method RowDown(src: array2<int>, cn: Channels, h: nat, w: nat, dst: array2<int>, buffer: array2<int>, topRow: nat,
                 fst: nat, lst: nat,
                 srcRow: nat, y: nat, out: nat)
    requires src.Length0 >= h && h % 2 == 0 && Even(src, cn, w) && y == 2 * out && y < h
    requires dst.Length0 >= h / 2 && dst.Length1 >= Places(w / 2, cn) && buffer.Length0 == 6 &&
             buffer.Length1 >= Places(w / 2, cn)
    requires dst != src && dst != buffer && buffer != src
    requires topRow == Slot(Top(y)) && srcRow == Top(y) + fst && fst == (if y == 0 then 0 else 3)
    requires Top(y) + lst == if y + 3 < h then y + 3 else h
    requires RingDown(buffer, src, cn, w, Top(y), srcRow)
    modifies dst, buffer
    ensures RingDown(buffer, src, cn, w, Top(y), Top(y) + lst)
    ensures forall x :: 0 <= x < Places(w / 2, cn) ==> dst[out, x] == ScaleDown(Down(src, cn, h, w, out, x))
    ensures forall v, x :: 0 <= v < dst.Length0 && v != out && 0 <= x < dst.Length1 ==> dst[v, x] == old(dst[v, x])
  {
    hide Slot, DownRow, Down, RingDown, HoldsDown, ScaleDown;
    var rows := AssignRows(topRow, 5, 6);
    SlotsFrom(Top(y), topRow, rows);
    FillDown(src, cn, w, buffer, rows, fst, lst, srcRow, Top(y));
    VerticalDown(src, cn, h, w, buffer, rows[0], rows[2], rows[4], dst, y, out);
  }

  /** The first source row the result row for y needs. */
  function Top(y: nat): nat {
    if y < 2 then 0 else y - 2
  }

  /** Down-sampling of an image of even size: every pixel of the result is the direct filter
      around the pixel it stands for. */
  method PyrDown(src: array2<int>, cn: Channels, h: nat, w: nat, dst: array2<int>, buffer: array2<int>)
    requires src.Length0 >= h && h % 2 == 0 && Even(src, cn, w) && Bytes(src)
    requires dst.Length0 >= h / 2 && dst.Length1 >= Places(w / 2, cn) && buffer.Length0 == 6 &&
             buffer.Length1 >= Places(w / 2, cn)
    requires dst != src && dst != buffer && buffer != src
    modifies dst, buffer
    ensures forall y, x :: 0 <= y < h / 2 && 0 <= x < Places(w / 2, cn) ==>
            dst[y, x] == (Down(src, cn, h, w, y, x) + 128) / 256
    ensures forall y, x :: 0 <= y < h / 2 && 0 <= x < Places(w / 2, cn) ==> 0 <= dst[y, x] <= 255
  {
    hide Slot, DownRow, Down, RingDown, HoldsDown, Bytes, ScaleDown;
    RingDownEmpty(buffer, src, cn, w);
    var topRow, fst, srcRow := 0, 0, 0;
    var lst := if h <= 2 then h else 3;
    var y, out := 0, 0;
    while y < h
      invariant y == 2 * out && y <= h
      invariant y < h ==> topRow == Slot(Top(y)) && srcRow == Top(y) + fst && fst == if y == 0 then 0 else 3
      invariant y < h ==> Top(y) + lst == if y + 3 < h then y + 3 else h
      invariant y < h ==> RingDown(buffer, src, cn, w, Top(y), srcRow)
      invariant forall v, x :: 0 <= v < out && 0 <= x < Places(w / 2, cn) ==>
                dst[v, x] == ScaleDown(Down(src, cn, h, w, v, x))
    {
      RowDown(src, cn, h, w, dst, buffer, topRow, fst, lst, srcRow, y, out);
      srcRow := srcRow + (lst - fst);
      RingDownPart(buffer, src, cn, w, Top(y), srcRow, y);
      if y > 0 {
        if y < h - 2 {
          AdvancesDown(y, out);
          topRow := AdvanceDown(topRow);
        }
      } else {
        fst := 3;
      }
      lst := if y + 4 < h then 5 else h - y;
      y, out := y + 2, out + 1;
    }
    forall v, x | 0 <= v < h / 2 && 0 <= x < Places(w / 2, cn)
      ensures dst[v, x] == (Down(src, cn, h, w, v, x) + 128) / 256 && 0 <= dst[v, x] <= 255
    {
      DownIsByte(src, cn, h, w, v, x);
    }
  }

  // ----- Up-sampling, directly -----

  predicate Any(src: array2<int>, cn: Channels, w: nat) {
    src.Length1 >= Places(w, cn) && w >= 1
  }

  /** Channel c of a row with a zero after every pixel. */
  ghost function Spread(src: array2<int>, cn: Channels, w: nat, r: int, i: int, c: int): int
    requires Any(src, cn, w) && 0 <= r < src.Length0 && 0 <= i < 2 * w && 0 <= c < cn
    reads src
  {
    if i % 2 == 0 then src[r, Place(i / 2, c, cn)] else 0
  }

  /** That row filtered, around pixel i. */
  ghost function UpPixel(src: array2<int>, cn: Channels, w: nat, r: int, i: int, c: int): int
    requires Any(src, cn, w) && 0 <= r < src.Length0 && 0 <= i < 2 * w && 0 <= c < cn
    reads src
  {
    Taps(Spread(src, cn, w, r, Mirror(i - 2, 2 * w), c), Spread(src, cn, w, r, Mirror(i - 1, 2 * w), c),
         Spread(src, cn, w, r, i, c),
         Spread(src, cn, w, r, Mirror(i + 1, 2 * w), c), Spread(src, cn, w, r, Mirror(i + 2, 2 * w), c))
  }

  /** The same at place x of the larger row. */
  ghost function UpRow(src: array2<int>, cn: Channels, w: nat, r: int, x: int): int
    requires Any(src, cn, w) && 0 <= r < src.Length0 && 0 <= x < Places(2 * w, cn)
    reads src
  {
    UpPixel(src, cn, w, r, PixelOf(x, cn), ChannelOf(x, cn))
  }

  lemma UpRowAt(src: array2<int>, cn: Channels, w: nat, r: int, i: int, c: int)
    requires Any(src, cn, w) && 0 <= r < src.Length0 && 0 <= i < 2 * w && 0 <= c < cn
    ensures 0 <= Place(i, c, cn) < Places(2 * w, cn) &&
            UpRow(src, cn, w, r, Place(i, c, cn)) == UpPixel(src, cn, w, r, i, c)
  {
    hide UpPixel;
    PlaceOf(i, c, cn);
  }

  ghost function SpreadUpRow(src: array2<int>, cn: Channels, h: nat, w: nat, i: int, x: int): int
    requires src.Length0 >= h && Any(src, cn, w) && 0 <= i < 2 * h && 0 <= x < Places(2 * w, cn)
    reads src
  {
    if i % 2 == 0 then UpRow(src, cn, w, i / 2, x) else 0
  }

  /** The image with zeros between its pixels, filtered around (y, x). */
  ghost function Up(src: array2<int>, cn: Channels, h: nat, w: nat, y: int, x: int): int
    requires src.Length0 >= h >= 1 && Any(src, cn, w) && 0 <= y < 2 * h && 0 <= x < Places(2 * w, cn)
    reads src
  {
    Taps(SpreadUpRow(src, cn, h, w, Mirror(y - 2, 2 * h), x), SpreadUpRow(src, cn, h, w, Mirror(y - 1, 2 * h), x),
         SpreadUpRow(src, cn, h, w, y, x),
         SpreadUpRow(src, cn, h, w, Mirror(y + 1, 2 * h), x), SpreadUpRow(src, cn, h, w, Mirror(y + 2, 2 * h), x))
  }

  predicate IsOdd(i: int) { i % 2 == 1 }

  /** Where the taps around the places 2x and 2x + 1 of a row of 2w fall: on pixels, or between. */
  lemma MirrorsApart(x: int, w: nat)
    requires 0 <= x < w
    ensures Mirror(2 * x - 2, 2 * w) == 2 * Before(x, w)
    ensures Mirror(2 * x + 2, 2 * w) == 2 * Behind(x, w)
    ensures IsOdd(Mirror(2 * x - 1, 2 * w)) && IsOdd(Mirror(2 * x + 3, 2 * w)) && IsOdd(2 * x + 1)
    ensures Mirror(2 * x, 2 * w) == 2 * x && Mirror(2 * x + 1, 2 * w) == 2 * x + 1
  {
  }

  lemma SpreadOn(src: array2<int>, cn: Channels, w: nat, r: int, i: int, k: int, c: int)
    requires Any(src, cn, w) && 0 <= r < src.Length0 && 0 <= k < w && i == 2 * k && 0 <= c < cn
    ensures Spread(src, cn, w, r, i, c) == src[r, Place(k, c, cn)]
  {
  }

  lemma SpreadBetween(src: array2<int>, cn: Channels, w: nat, r: int, i: int, c: int)
    requires Any(src, cn, w) && 0 <= r < src.Length0 && 0 <= i < 2 * w && IsOdd(i) && 0 <= c < cn
    ensures Spread(src, cn, w, r, i, c) == 0
  {
  }

  lemma SpreadUpRowOn(src: array2<int>, cn: Channels, h: nat, w: nat, i: int, k: int, x: int)
    requires src.Length0 >= h && Any(src, cn, w) && 0 <= k < h && 0 <= x < Places(2 * w, cn) && i == 2 * k
    ensures SpreadUpRow(src, cn, h, w, i, x) == UpRow(src, cn, w, k, x)
  {
    hide UpRow;
  }

  lemma SpreadUpRowBetween(src: array2<int>, cn: Channels, h: nat, w: nat, i: int, x: int)
    requires src.Length0 >= h && Any(src, cn, w) && 0 <= x < Places(2 * w, cn) && 0 <= i < 2 * h && IsOdd(i)
    ensures SpreadUpRow(src, cn, h, w, i, x) == 0
  {
    hide UpRow;
  }

  function Before(x: int, w: nat): int {
    if x > 0 then x - 1 else if w == 1 then 0 else 1
  }

  function Behind(x: int, w: nat): int {
    if x < w - 1 then x + 1 else x
  }

  /** The four formulas of the kernel, by parity and border, are the mirrored filter. */
  lemma UpRowCases(src: array2<int>, cn: Channels, w: nat, r: int, x: int, c: int)
    requires Any(src, cn, w) && 0 <= r < src.Length0 && 0 <= x < w && 0 <= c < cn
    ensures UpPixel(src, cn, w, r, 2 * x, c) ==
      if w == 1 then UpLast(src[r, Place(0, c, cn)])
      else if x == 0 then UpLeftTop(src[r, Place(0, c, cn)], src[r, Place(1, c, cn)])
      else if x == w - 1 then UpRightBottom(src[r, Place(w - 2, c, cn)], src[r, Place(w - 1, c, cn)])
      else UpCommon(src[r, Place(x - 1, c, cn)], src[r, Place(x, c, cn)], src[r, Place(x + 1, c, cn)])
    ensures UpPixel(src, cn, w, r, 2 * x + 1, c) ==
      if x == w - 1 then UpLast(src[r, Place(w - 1, c, cn)]) else UpBetween(src[r, Place(x, c, cn)],
          src[r, Place(x + 1, c, cn)])
  {
    hide Spread, Mirror, IsOdd, UpPixel;
    MirrorsApart(x, w);
    var a, b, d, e := Mirror(2 * x - 2, 2 * w), Mirror(2 * x - 1, 2 * w), Mirror(2 * x + 2, 2 * w),
                      Mirror(2 * x + 3, 2 * w);
    UpPixelUnfolds(src, cn, w, r, 2 * x, a, b, 2 * x + 1, d, c);
    UpPixelUnfolds(src, cn, w, r, 2 * x + 1, b, 2 * x, d, e, c);
    SpreadOn(src, cn, w, r, a, Before(x, w), c);
    SpreadBetween(src, cn, w, r, b, c);
    SpreadOn(src, cn, w, r, 2 * x, x, c);
    SpreadBetween(src, cn, w, r, 2 * x + 1, c);
    SpreadOn(src, cn, w, r, d, Behind(x, w), c);
    SpreadBetween(src, cn, w, r, e, c);
  }

  lemma UpPixelUnfolds(src: array2<int>, cn: Channels, w: nat, r: int, i: int, j: int, k: int, l: int, m: int, c: int)
    requires Any(src, cn, w) && 0 <= r < src.Length0 && 0 <= i < 2 * w && 0 <= c < cn
    requires j == Mirror(i - 2, 2 * w) && k == Mirror(i - 1, 2 * w) && l == Mirror(i + 1, 2 * w) &&
             m == Mirror(i + 2, 2 * w)
    ensures UpPixel(src, cn, w, r, i, c) ==
      Taps(Spread(src, cn, w, r, j, c), Spread(src, cn, w, r, k, c), Spread(src, cn, w, r, i, c),
          Spread(src, cn, w, r, l, c),
           Spread(src, cn, w, r, m, c))
  {
  }

  lemma UpUnfolds(src: array2<int>, cn: Channels, h: nat, w: nat, y: int, x: int, a: int, b: int, c: int, d: int)
    requires src.Length0 >= h >= 1 && Any(src, cn, w) && 0 <= y < 2 * h && 0 <= x < Places(2 * w, cn)
    requires a == Mirror(y - 2, 2 * h) && b == Mirror(y - 1, 2 * h) && c == Mirror(y + 1, 2 * h) &&
             d == Mirror(y + 2, 2 * h)
    ensures Up(src, cn, h, w, y, x) ==
      Taps(SpreadUpRow(src, cn, h, w, a, x), SpreadUpRow(src, cn, h, w, b, x), SpreadUpRow(src, cn, h, w, y, x),
           SpreadUpRow(src, cn, h, w, c, x), SpreadUpRow(src, cn, h, w, d, x))
  {
  }

  lemma UpCases(src: array2<int>, cn: Channels, h: nat, w: nat, y: int, x: int)
    requires src.Length0 >= h >= 1 && Any(src, cn, w) && 0 <= y < h && 0 <= x < Places(2 * w, cn)
    ensures Up(src, cn, h, w, 2 * y, x) ==
      if h == 1 then UpLast(UpRow(src, cn, w, 0, x))
      else if y == 0 then UpLeftTop(UpRow(src, cn, w, 0, x), UpRow(src, cn, w, 1, x))
      else if y == h - 1 then UpRightBottom(UpRow(src, cn, w, h - 2, x), UpRow(src, cn, w, h - 1, x))
      else UpCommon(UpRow(src, cn, w, y - 1, x), UpRow(src, cn, w, y, x), UpRow(src, cn, w, y + 1, x))
    ensures Up(src, cn, h, w, 2 * y + 1, x) ==
      if y == h - 1 then UpLast(UpRow(src, cn, w, h - 1, x)) else UpBetween(UpRow(src, cn, w, y, x),
          UpRow(src, cn, w, y + 1, x))
  {
    hide UpRow, SpreadUpRow, Up, Mirror, IsOdd;
    MirrorsApart(y, h);
    var a, b, c, d := Mirror(2 * y - 2, 2 * h), Mirror(2 * y - 1, 2 * h), Mirror(2 * y + 2, 2 * h),
                      Mirror(2 * y + 3, 2 * h);
    UpUnfolds(src, cn, h, w, 2 * y, x, a, b, 2 * y + 1, c);
    UpUnfolds(src, cn, h, w, 2 * y + 1, x, b, 2 * y, c, d);
    SpreadUpRowOn(src, cn, h, w, a, Before(y, h), x);
    SpreadUpRowBetween(src, cn, h, w, b, x);
    SpreadUpRowOn(src, cn, h, w, 2 * y, y, x);
    SpreadUpRowBetween(src, cn, h, w, 2 * y + 1, x);
    SpreadUpRowOn(src, cn, h, w, c, Behind(y, h), x);
    SpreadUpRowBetween(src, cn, h, w, d, x);
  }

  lemma UpPixelRange(src: array2<int>, cn: Channels, w: nat, r: int, x: int, c: int)
    requires Any(src, cn, w) && 0 <= r < src.Length0 && 0 <= x < w && 0 <= c < cn && Bytes(src)
    ensures 0 <= UpPixel(src, cn, w, r, 2 * x, c) <= 8 * 255 && 0 <= UpPixel(src, cn, w, r, 2 * x + 1, c) <= 8 * 255
  {
    hide UpPixel;
    UpRowCases(src, cn, w, r, x, c);
  }

  lemma UpRowRangeAt(src: array2<int>, cn: Channels, w: nat, r: int, x: int)
    requires Any(src, cn, w) && 0 <= r < src.Length0 && 0 <= x < Places(2 * w, cn) && Bytes(src)
    ensures 0 <= UpRow(src, cn, w, r, x) <= 8 * 255
  {
    hide UpPixel, Bytes;
    var i := PixelOf(x, cn);
    UpPixelRange(src, cn, w, r, i / 2, ChannelOf(x, cn));
    assert i == 2 * (i / 2) || i == 2 * (i / 2) + 1;
  }

  lemma UpIsByte(src: array2<int>, cn: Channels, h: nat, w: nat, y: int, x: int)
    requires src.Length0 >= h >= 1 && Any(src, cn, w) && 0 <= y < h && 0 <= x < Places(2 * w, cn) && Bytes(src)
    ensures 0 <= (Up(src, cn, h, w, 2 * y, x) + 32) / 64 <= 255
    ensures 0 <= (Up(src, cn, h, w, 2 * y + 1, x) + 32) / 64 <= 255
  {
    hide UpRow, Up, Bytes;
    UpCases(src, cn, h, w, y, x);
    UpRowRangeAt(src, cn, w, y, x);
    UpRowRangeAt(src, cn, w, if y == 0 then 0 else y - 1, x);
    UpRowRangeAt(src, cn, w, if y == h - 1 then y else y + 1, x);
  }

  // ----- Up-sampling with the ring -----

  ghost predicate HoldsUp(buffer: array2<int>, slot: nat, src: array2<int>, cn: Channels, w: nat, r: int)
    requires Any(src, cn, w) && 0 <= r < src.Length0 && slot < buffer.Length0 && buffer.Length1 >= Places(2 * w, cn)
    reads buffer, src
  {
    forall x :: 0 <= x < Places(2 * w, cn) ==> buffer[slot, x] == UpRow(src, cn, w, r, x)
  }

  /** The formulas at the places of the larger row. */
  lemma UpRowCasesAt(src: array2<int>, cn: Channels, w: nat, r: int, x: int, c: int)
    requires Any(src, cn, w) && 0 <= r < src.Length0 && 0 <= x < w && 0 <= c < cn
    ensures 0 <= Place(2 * x, c, cn) < Places(2 * w, cn) && 0 <= Place(2 * x + 1, c, cn) < Places(2 * w, cn)
    ensures UpRow(src, cn, w, r, Place(2 * x, c, cn)) ==
      if w == 1 then UpLast(src[r, Place(0, c, cn)])
      else if x == 0 then UpLeftTop(src[r, Place(0, c, cn)], src[r, Place(1, c, cn)])
      else if x == w - 1 then UpRightBottom(src[r, Place(w - 2, c, cn)], src[r, Place(w - 1, c, cn)])
      else UpCommon(src[r, Place(x - 1, c, cn)], src[r, Place(x, c, cn)], src[r, Place(x + 1, c, cn)])
    ensures UpRow(src, cn, w, r, Place(2 * x + 1, c, cn)) ==
      if x == w - 1 then UpLast(src[r, Place(w - 1, c, cn)]) else UpBetween(src[r, Place(x, c, cn)],
          src[r, Place(x + 1, c, cn)])
  {
    hide UpPixel;
    UpRowAt(src, cn, w, r, 2 * x, c);
    UpRowAt(src, cn, w, r, 2 * x + 1, c);
    UpRowCases(src, cn, w, r, x, c);
  }

  method FilterRowUp(src: array2<int>, cn: Channels, w: nat, r: nat, buffer: array2<int>, slot: nat)
    requires Any(src, cn, w) && r < src.Length0 && slot < buffer.Length0 && buffer.Length1 >= Places(2 * w, cn) &&
             buffer != src
    modifies buffer
    ensures HoldsUp(buffer, slot, src, cn, w, r)
    ensures forall s, x :: 0 <= s < buffer.Length0 && s != slot && 0 <= x < buffer.Length1 ==>
            buffer[s, x] == old(buffer[s, x])
  {
    if cn == 1 {
      FilterRowUp1(src, w, r, buffer, slot);
    } else {
      FilterRowUp3(src, w, r, buffer, slot);
    }
  }

  method FilterRowUp1(src: array2<int>, w: nat, r: nat, buffer: array2<int>, slot: nat)
    requires Any(src, 1, w) && r < src.Length0 && slot < buffer.Length0 && buffer.Length1 >= 2 * w && buffer != src
    modifies buffer
    ensures HoldsUp(buffer, slot, src, 1, w, r)
    ensures forall s, x :: 0 <= s < buffer.Length0 && s != slot && 0 <= x < buffer.Length1 ==>
            buffer[s, x] == old(buffer[s, x])
  {
    hide UpRow;
    UpRowCasesAt(src, 1, w, r, 0, 0);
    if w > 1 {
      buffer[slot, 0] := UpLeftTop(src[r, 0], src[r, 1]);
      buffer[slot, 1] := UpBetween(src[r, 0], src[r, 1]);
      buffer[slot, w * 2 - 2] := UpRightBottom(src[r, w - 2], src[r, w - 1]);
      buffer[slot, w * 2 - 1] := UpLast(src[r, w - 1]);
      UpRowCasesAt(src, 1, w, r, w - 1, 0);
      for x := 1 to w - 1
        invariant buffer[slot, w * 2 - 2] == UpRow(src, 1, w, r, w * 2 - 2) &&
                  buffer[slot, w * 2 - 1] == UpRow(src, 1, w, r, w * 2 - 1)
        invariant forall z :: 0 <= z < 2 * x ==> buffer[slot, z] == UpRow(src, 1, w, r, z)
        invariant forall s, z :: 0 <= s < buffer.Length0 && s != slot && 0 <= z < buffer.Length1 ==>
                  buffer[s, z] == old(buffer[s, z])
      {
        buffer[slot, 2 * x] := UpCommon(src[r, x - 1], src[r, x], src[r, x + 1]);
        buffer[slot, 2 * x + 1] := UpBetween(src[r, x], src[r, x + 1]);
        UpRowCasesAt(src, 1, w, r, x, 0);
      }
    } else {
      buffer[slot, 0] := UpLast(src[r, 0]);
      buffer[slot, 1] := UpLast(src[r, 0]);
    }
  }

  /** The larger pixels that stand for the pixel at places x to x + 2. */
  method UpThree(src: array2<int>, w: nat, r: nat, buffer: array2<int>, slot: nat, x: nat)
    requires Any(src, 3, w) && r < src.Length0 && slot < buffer.Length0 && buffer.Length1 >= Places(2 * w, 3) &&
             buffer != src
    requires 3 <= x < w * 3 - 3 && x % 3 == 0
    modifies buffer
    ensures forall z :: 2 * x <= z < 2 * x + 6 ==> buffer[slot, z] == UpRow(src, 3, w, r, z)
    ensures forall s, z ::
              0 <= s < buffer.Length0 && 0 <= z < buffer.Length1 && !(s == slot && 2 * x <= z < 2 * x + 6) ==>
              buffer[s, z] == old(buffer[s, z])
  {
    hide UpRow, UpCommon, UpBetween;
    buffer[slot, 2 * x] := UpCommon(src[r, x - 3], src[r, x], src[r, x + 3]);
    buffer[slot, 2 * x + 3] := UpBetween(src[r, x], src[r, x + 3]);
    buffer[slot, 2 * x + 1] := UpCommon(src[r, x - 2], src[r, x + 1], src[r, x + 4]);
    buffer[slot, 2 * x + 4] := UpBetween(src[r, x + 1], src[r, x + 4]);
    buffer[slot, 2 * x + 2] := UpCommon(src[r, x - 1], src[r, x + 2], src[r, x + 5]);
    buffer[slot, 2 * x + 5] := UpBetween(src[r, x + 2], src[r, x + 5]);
    ghost var i := x / 3;
    UpRowCasesAt(src, 3, w, r, i, 0);
    UpRowCasesAt(src, 3, w, r, i, 1);
    UpRowCasesAt(src, 3, w, r, i, 2);
  }

  /** The same for three channels. */
  method FilterRowUp3(src: array2<int>, w: nat, r: nat, buffer: array2<int>, slot: nat)
    requires Any(src, 3, w) && r < src.Length0 && slot < buffer.Length0 && buffer.Length1 >= Places(2 * w, 3) &&
             buffer != src
    modifies buffer
    ensures HoldsUp(buffer, slot, src, 3, w, r)
    ensures forall s, x :: 0 <= s < buffer.Length0 && s != slot && 0 <= x < buffer.Length1 ==>
            buffer[s, x] == old(buffer[s, x])
  {
    hide UpRow;
    var wn := w * 3;
    UpBorders3(src, w, r, buffer, slot, wn);
    if w > 1 {
      var x := 3;
      while x < wn - 3
        invariant 3 <= x <= wn - 3 && x % 3 == 0
        invariant forall z :: wn * 2 - 6 <= z < wn * 2 ==> buffer[slot, z] == UpRow(src, 3, w, r, z)
        invariant forall z :: 0 <= z < 2 * x ==> buffer[slot, z] == UpRow(src, 3, w, r, z)
        invariant forall s, z :: 0 <= s < buffer.Length0 && s != slot && 0 <= z < buffer.Length1 ==>
                  buffer[s, z] == old(buffer[s, z])
      {
        UpThree(src, w, r, buffer, slot, x);
        x := x + 3;
      }
    }
  }

  /** First and last pixel of each channel. */
  method UpBorders3(src: array2<int>, w: nat, r: nat, buffer: array2<int>, slot: nat, wn: nat)
    requires Any(src, 3, w) && r < src.Length0 && wn == w * 3
    requires slot < buffer.Length0 && buffer.Length1 >= Places(2 * w, 3) && buffer != src
    modifies buffer
    ensures forall z :: 0 <= z < 6 || wn * 2 - 6 <= z < wn * 2 ==> buffer[slot, z] == UpRow(src, 3, w, r, z)
    ensures forall s, x :: 0 <= s < buffer.Length0 && s != slot && 0 <= x < buffer.Length1 ==>
            buffer[s, x] == old(buffer[s, x])
  {
    hide UpRow;
    for c := 0 to 3
      invariant forall z :: 0 <= z < c || 3 <= z < 3 + c ==> buffer[slot, z] == UpRow(src, 3, w, r, z)
      invariant forall z :: wn * 2 - 6 <= z < wn * 2 - 6 + c || wn * 2 - 3 <= z < wn * 2 - 3 + c ==>
                buffer[slot, z] == UpRow(src, 3, w, r, z)
      invariant forall s, x :: 0 <= s < buffer.Length0 && s != slot && 0 <= x < buffer.Length1 ==>
                buffer[s, x] == old(buffer[s, x])
    {
      UpRowCasesAt(src, 3, w, r, 0, c);
      UpRowCasesAt(src, 3, w, r, w - 1, c);
      if w > 1 {
        buffer[slot, c] := UpLeftTop(src[r, c], src[r, 3 + c]);
        buffer[slot, 3 + c] := UpBetween(src[r, c], src[r, 3 + c]);
        buffer[slot, wn * 2 - 6 + c] := UpRightBottom(src[r, wn - 6 + c], src[r, wn - 3 + c]);
        buffer[slot, wn * 2 - 3 + c] := UpLast(src[r, wn - 3 + c]);
      } else {
        buffer[slot, c] := UpLast(src[r, c]);
        buffer[slot, 3 + c] := UpLast(src[r, c]);
      }
    }
  }

  /** The slot of a source row in the smaller ring. */
  function UpSlot(r: int): (s: nat)
    ensures s < 3
  {
    r % 3
  }

  lemma UpSlotsApart(r: int, q: int)
    requires r < q < r + 3
    ensures UpSlot(r) != UpSlot(q)
  {
  }

  lemma UpSlotsFrom(lo: nat, top: nat, rows: seq<nat>)
    requires top == UpSlot(lo) && |rows| == 3 && forall j :: 0 <= j < 3 ==> rows[j] == (top + j) % 3
    ensures forall j :: 0 <= j < 3 ==> rows[j] == UpSlot(lo + j)
  {
  }

  ghost predicate RingUp(buffer: array2<int>, src: array2<int>, cn: Channels, w: nat, lo: int, hi: int)
    requires Any(src, cn, w) && 0 <= lo && hi <= src.Length0 && buffer.Length0 == 3 &&
             buffer.Length1 >= Places(2 * w, cn)
    reads buffer, src
  {
    forall r :: lo <= r < hi ==> HoldsUp(buffer, UpSlot(r), src, cn, w, r)
  }

  function UpTop(y: nat): nat {
    if y == 0 then 0 else y - 1
  }

  method VerticalUp(src: array2<int>, cn: Channels, h: nat, w: nat, buffer: array2<int>, row0: nat, row1: nat,
                    row2: nat,
                    dst: array2<int>, y: nat, out: nat, out1: nat)
    requires src.Length0 >= h >= 1 && Any(src, cn, w) && y < h && out == 2 * y && out1 == out + 1
    requires dst.Length0 >= 2 * h && dst.Length1 >= Places(2 * w, cn) && buffer.Length0 == 3 &&
             buffer.Length1 >= Places(2 * w, cn)
    requires dst != src && dst != buffer
    requires var top := UpTop(y);
      && row0 == UpSlot(top) && row1 == UpSlot(top + 1) && row2 == UpSlot(top + 2)
      && RingUp(buffer, src, cn, w, top, if y + 2 < h then y + 2 else h)
    modifies dst
    ensures forall x :: 0 <= x < Places(2 * w, cn) ==> dst[out, x] == ScaleUp(Up(src, cn, h, w, out, x))
    ensures forall x :: 0 <= x < Places(2 * w, cn) ==> dst[out1, x] == ScaleUp(Up(src, cn, h, w, out1, x))
    ensures forall v, x :: 0 <= v < dst.Length0 && v != out && v != out1 && 0 <= x < dst.Length1 ==>
            dst[v, x] == old(dst[v, x])
  {
    hide UpSlot, UpRow, Up, ScaleUp, UpCommon, UpBetween, UpLeftTop, UpRightBottom, UpLast;
    ghost var top := UpTop(y);
    assert HoldsUp(buffer, UpSlot(top), src, cn, w, top);
    assert h > 1 ==> HoldsUp(buffer, UpSlot(top + 1), src, cn, w, top + 1);
    assert y > 0 && y < h - 1 ==> HoldsUp(buffer, UpSlot(top + 2), src, cn, w, top + 2);
    for x := 0 to Places(2 * w, cn)
      invariant forall z :: 0 <= z < x ==> dst[out, z] == ScaleUp(Up(src, cn, h, w, out, z))
      invariant forall z :: 0 <= z < x ==> dst[out1, z] == ScaleUp(Up(src, cn, h, w, out1, z))
      invariant forall v, z :: 0 <= v < dst.Length0 && v != out && v != out1 && 0 <= z < dst.Length1 ==>
                dst[v, z] == old(dst[v, z])
    {
      UpCases(src, cn, h, w, y, x);
      if y > 0 {
        if y < h - 1 {
          dst[out, x] := ScaleUp(UpCommon(buffer[row0, x], buffer[row1, x], buffer[row2, x]));
          dst[out1, x] := ScaleUp(UpBetween(buffer[row1, x], buffer[row2, x]));
        } else {
          dst[out, x] := ScaleUp(UpRightBottom(buffer[row0, x], buffer[row1, x]));
          dst[out1, x] := ScaleUp(UpLast(buffer[row1, x]));
        }
      } else {
        if h > 1 {
          dst[out, x] := ScaleUp(UpLeftTop(buffer[row0, x], buffer[row1, x]));
          dst[out1, x] := ScaleUp(UpBetween(buffer[row0, x], buffer[row1, x]));
        } else {
          dst[out, x] := ScaleUp(UpLast(buffer[row0, x]));
          dst[out1, x] := ScaleUp(UpLast(buffer[row0, x]));
        }
      }
    }
  }

  method FillUp(src: array2<int>, cn: Channels, w: nat, buffer: array2<int>, rows: seq<nat>, fst: nat, lst: nat,
                srcRow: nat, ghost lo: nat)
    requires Any(src, cn, w) && buffer.Length0 == 3 && buffer.Length1 >= Places(2 * w, cn) && buffer != src
    requires |rows| == 3 && fst <= lst <= 3 && srcRow + (lst - fst) <= src.Length0
    requires forall j :: 0 <= j < 3 ==> rows[j] == UpSlot(lo + j)
    requires srcRow == lo + fst && RingUp(buffer, src, cn, w, lo, srcRow)
    modifies buffer
    ensures RingUp(buffer, src, cn, w, lo, lo + lst)
  {
    hide UpSlot, UpRow;
    var next := srcRow;
    for y1 := fst to lst
      invariant next == lo + y1 && RingUp(buffer, src, cn, w, lo, next)
    {
      label Before:
      FilterRowUp(src, cn, w, next, buffer, rows[y1]);
      forall r | lo <= r < next
        ensures HoldsUp(buffer, UpSlot(r), src, cn, w, r)
      {
        assert old@Before(HoldsUp(buffer, UpSlot(r), src, cn, w, r));
        UpSlotsApart(r, next);
      }
      next := next + 1;
    }
  }

  /** Two rows of the result: fill the ring, then filter down its columns. */
  method RowsUp(src: array2<int>, cn: Channels, h: nat, w: nat, dst: array2<int>, buffer: array2<int>, topRow: nat,
                fst: nat, lst: nat,
                srcRow: nat, y: nat, out: nat, out1: nat)
    requires src.Length0 >= h && Any(src, cn, w) && y < h && out == 2 * y && out1 == out + 1
    requires dst.Length0 >= 2 * h && dst.Length1 >= Places(2 * w, cn) && buffer.Length0 == 3 &&
             buffer.Length1 >= Places(2 * w, cn)
    requires dst != src && dst != buffer && buffer != src
    requires topRow == UpSlot(UpTop(y)) && srcRow == UpTop(y) + fst && fst == (if y == 0 then 0 else 2)
    requires UpTop(y) + lst == if y + 2 < h then y + 2 else h
    requires RingUp(buffer, src, cn, w, UpTop(y), srcRow)
    modifies dst, buffer
    ensures RingUp(buffer, src, cn, w, UpTop(y), UpTop(y) + lst)
    ensures forall x :: 0 <= x < Places(2 * w, cn) ==> dst[out, x] == ScaleUp(Up(src, cn, h, w, out, x))
    ensures forall x :: 0 <= x < Places(2 * w, cn) ==> dst[out1, x] == ScaleUp(Up(src, cn, h, w, out1, x))
    ensures forall v, x :: 0 <= v < dst.Length0 && v != out && v != out1 && 0 <= x < dst.Length1 ==>
            dst[v, x] == old(dst[v, x])
  {
    hide UpSlot, UpRow, Up, RingUp, HoldsUp, ScaleUp;
    var rows := AssignRows(topRow, 3, 3);
    UpSlotsFrom(UpTop(y), topRow, rows);
    FillUp(src, cn, w, buffer, rows, fst, lst, srcRow, UpTop(y));
    VerticalUp(src, cn, h, w, buffer, rows[0], rows[1], rows[2], dst, y, out, out1);
  }

  lemma RingUpPart(buffer: array2<int>, src: array2<int>, cn: Channels, w: nat, lo: int, hi: int, from: int)
    requires Any(src, cn, w) && 0 <= lo <= from && hi <= src.Length0
    requires buffer.Length0 == 3 && buffer.Length1 >= Places(2 * w, cn) && RingUp(buffer, src, cn, w, lo, hi)
    ensures RingUp(buffer, src, cn, w, from, hi)
  {
  }

  lemma RingUpEmpty(buffer: array2<int>, src: array2<int>, cn: Channels, w: nat)
    requires Any(src, cn, w) && buffer.Length0 == 3 && buffer.Length1 >= Places(2 * w, cn)
    ensures RingUp(buffer, src, cn, w, 0, 0) && UpSlot(0) == 0
  {
  }

  /** One row further in the ring. */
  function AdvanceUp(topRow: nat): nat {
    if topRow + 1 < 3 then topRow + 1 else 0
  }

  lemma AdvancesUp(y: nat)
    requires y >= 1
    ensures AdvanceUp(UpSlot(y - 1)) == UpSlot(y)
  {
  }

  /** Up-sampling: every pixel of the result is the direct filter over the image with zeros
      put between its pixels. */
  method PyrUp(src: array2<int>, cn: Channels, h: nat, w: nat, dst: array2<int>, buffer: array2<int>)
    requires src.Length0 >= h && Any(src, cn, w) && Bytes(src)
    requires dst.Length0 >= 2 * h && dst.Length1 >= Places(2 * w, cn) && buffer.Length0 == 3 &&
             buffer.Length1 >= Places(2 * w, cn)
    requires dst != src && dst != buffer && buffer != src
    modifies dst, buffer
    ensures forall y, x :: 0 <= y < 2 * h && 0 <= x < Places(2 * w, cn) ==>
            dst[y, x] == (Up(src, cn, h, w, y, x) + 32) / 64
    ensures forall y, x :: 0 <= y < 2 * h && 0 <= x < Places(2 * w, cn) ==> 0 <= dst[y, x] <= 255
  {
    hide UpSlot, UpRow, Up, RingUp, HoldsUp, Bytes, ScaleUp;
    RingUpEmpty(buffer, src, cn, w);
    var topRow, fst, srcRow := 0, 0, 0;
    var lst := if h <= 1 then h else 2;
    var y, out := 0, 0;
    while y < h
      invariant y <= h && out == 2 * y
      invariant y < h ==> topRow == UpSlot(UpTop(y)) && srcRow == UpTop(y) + fst && fst == if y == 0 then 0 else 2
      invariant y < h ==> UpTop(y) + lst == if y + 2 < h then y + 2 else h
      invariant y < h ==> RingUp(buffer, src, cn, w, UpTop(y), srcRow)
      invariant forall v, x :: 0 <= v < out && 0 <= x < Places(2 * w, cn) ==>
                dst[v, x] == ScaleUp(Up(src, cn, h, w, v, x))
    {
      RowsUp(src, cn, h, w, dst, buffer, topRow, fst, lst, srcRow, y, out, out + 1);
      srcRow := srcRow + (lst - fst);
      RingUpPart(buffer, src, cn, w, UpTop(y), srcRow, y);
      if y > 0 {
        if y < h - 1 {
          AdvancesUp(y);
          topRow := AdvanceUp(topRow);
        }
      } else {
        fst := 2;
      }
      lst := if y < h - 2 then 3 else h - y;
      y, out := y + 1, out + 2;
    }
    forall v, x | 0 <= v < 2 * h && 0 <= x < Places(2 * w, cn)
      ensures dst[v, x] == (Up(src, cn, h, w, v, x) + 32) / 64 && 0 <= dst[v, x] <= 255
    {
      ScaledUp(src, cn, h, w, v, x);
    }
  }

  lemma ScaledUp(src: array2<int>, cn: Channels, h: nat, w: nat, v: int, x: int)
    requires src.Length0 >= h >= 1 && Any(src, cn, w) && 0 <= v < 2 * h && 0 <= x < Places(2 * w, cn) && Bytes(src)
    ensures 0 <= (Up(src, cn, h, w, v, x) + 32) / 64 <= 255
    ensures ScaleUp(Up(src, cn, h, w, v, x)) == (Up(src, cn, h, w, v, x) + 32) / 64
  {
    hide Up, Bytes;
    UpIsByte(src, cn, h, w, v / 2, x);
    assert v == 2 * (v / 2) || v == 2 * (v / 2) + 1;
  }
}
