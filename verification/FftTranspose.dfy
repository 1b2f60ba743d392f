/** The two-pass, two-dimensional transforms of the FFT manager.

    The transform hardware works on rows only.  After each pass a DMA channel, programmed with
    one or two AB-synchronised parameter blocks, copies the rows into columns; after the second
    pass the matrix is in its original orientation again.  The row transform itself is left
    open: any function on sequences of complex numbers that keeps their length. */
module FftTranspose {
  import opened Shared

  datatype Cplx = Cplx(re: real, im: real)

  type Transform = seq<Cplx> -> seq<Cplx>

  ghost predicate KeepsLength(f: Transform) {
    forall s :: |f(s)| == |s|
  }

  // ----- Matrices, row after row -----

  lemma RowFits(r: nat, rows: nat, n: nat)
    requires r < rows
    ensures r * n + n <= rows * n
  {
    MulMono(r + 1, rows, n);
    assert (r + 1) * n == r * n + n;
  }

  lemma InMatrix(r: nat, rows: nat, k: nat, n: nat)
    requires r < rows && k < n
    ensures r * n + k < rows * n && (r * n + k) / n == r && (r * n + k) % n == k
  {
    RowFits(r, rows, n);
    DivMod(r, k, n);
  }

  /** Place i of an n-by-rows matrix, seen in its transposed. */
  lemma InTransposed(i: nat, n: nat, rows: nat)
    requires i < n * rows
    ensures 0 < n && 0 < rows && i / rows < n && i % rows < rows && i == (i / rows) * rows + i % rows
    ensures (i % rows) * n + i / rows < rows * n
  {
    assert rows != 0 && n != 0;
    var q := i / rows;
    assert i == q * rows + i % rows;
    assert q >= n ==> q * rows >= n * rows by {
      if q >= n {
        MulMono(n, q, rows);
      }
    }
    RowFits(i % rows, rows, n);
  }

  /** The number of entries of a matrix with `rows` rows of n. */
  function Size(n: nat, rows: nat): nat {
    n * rows
  }

  function Row(m: seq<Cplx>, n: nat, rows: nat, r: nat): (row: seq<Cplx>)
    requires |m| == Size(n, rows) && r < rows
    ensures |row| == n
  {
    RowFits(r, rows, n);
    m[r * n..r * n + n]
  }

  /** One pass: rows transformed, then the matrix transposed. */
  ghost function Pass(f: Transform, m: seq<Cplx>, n: nat, rows: nat): (t: seq<Cplx>)
    requires KeepsLength(f) && |m| == Size(n, rows)
    ensures |t| == Size(n, rows)
  {
    seq(Size(n, rows), i requires 0 <= i < Size(n, rows) => PassAt(f, m, n, rows, i))
  }

  ghost function PassAt(f: Transform, m: seq<Cplx>, n: nat, rows: nat, i: nat): Cplx
    requires KeepsLength(f) && |m| == Size(n, rows) && i < Size(n, rows)
  {
    InTransposed(i, n, rows);
    f(Row(m, n, rows, i % rows))[i / rows]
  }

  /** Both passes over a matrix of h rows of length w. */
  ghost function TwoPasses(f: Transform, m: seq<Cplx>, w: nat, h: nat): (t: seq<Cplx>)
    requires KeepsLength(f) && |m| == Size(w, h)
    ensures |t| == Size(w, h)
  {
    Pass(f, Pass(f, m, w, h), h, w)
  }

  /** Column c of the matrix whose rows have been transformed. */
  ghost function Column(f: Transform, m: seq<Cplx>, w: nat, h: nat, c: nat): (col: seq<Cplx>)
    requires KeepsLength(f) && |m| == Size(w, h) && c < w
    ensures |col| == h
  {
    seq(h, k requires 0 <= k < h => f(Row(m, w, h, k))[c])
  }

  lemma RowEntry(f: Transform, m: seq<Cplx>, w: nat, h: nat, c: nat, k: nat)
    requires KeepsLength(f) && |m| == Size(w, h) && c < w && k < h
    ensures Row(Pass(f, m, w, h), h, w, c)[k] == f(Row(m, w, h, k))[c]
  {
    RowFits(c, w, h);
    InMatrix(c, w, k, h);
    var t := Pass(f, m, w, h);
    assert Row(t, h, w, c)[k] == t[c * h + k];
    assert t[c * h + k] == PassAt(f, m, w, h, c * h + k);
  }

  /** Two passes are the two-dimensional transform in the original orientation: in row r and
      column c stands entry r of the transform of column c of the transformed rows. */
  lemma RowColumn(f: Transform, m: seq<Cplx>, w: nat, h: nat, r: nat, c: nat)
    requires KeepsLength(f) && |m| == Size(w, h) && r < h && c < w
    ensures r * w + c < Size(w, h)
    ensures TwoPasses(f, m, w, h)[r * w + c] == f(Column(f, m, w, h, c))[r]
  {
    InMatrix(r, h, c, w);
    var t := Pass(f, m, w, h);
    var row := Row(t, h, w, c);
    forall k: nat | k < h
      ensures row[k] == Column(f, m, w, h, c)[k]
    {
      RowEntry(f, m, w, h, c, k);
    }
    assert row == Column(f, m, w, h, c);
    assert TwoPasses(f, m, w, h)[r * w + c] == PassAt(f, t, h, w, r * w + c);
  }

  // ----- How matrices lie in memory -----

  function Reals(a: seq<real>, size: nat): (m: seq<Cplx>)
    requires size <= |a|
    ensures |m| == size
  {
    seq(size, i requires 0 <= i < size => Cplx(a[i], 0.0))
  }

  /** What is left of a source that is cleared before it is read. */
  function Blank(size: nat): (m: seq<Cplx>)
    ensures |m| == size
  {
    seq(size, i requires 0 <= i < size => Cplx(0.0, 0.0))
  }

  /** Real and imaginary part next to each other. */
  function Crossed(a: seq<real>, size: nat): (m: seq<Cplx>)
    requires 2 * size <= |a|
    ensures |m| == size
  {
    seq(size, i requires 0 <= i < size => Cplx(a[2 * i], a[2 * i + 1]))
  }

  /** The imaginary part first. */
  function Swapped(a: seq<real>, size: nat): (m: seq<Cplx>)
    requires 2 * size <= |a|
    ensures |m| == size
  {
    seq(size, i requires 0 <= i < size => Cplx(a[2 * i + 1], a[2 * i]))
  }

  /** Real parts in one place, imaginary parts in another. */
  function Split(a: seq<real>, b: seq<real>, size: nat): (m: seq<Cplx>)
    requires size <= |a| && size <= |b|
    ensures |m| == size
  {
    seq(size, i requires 0 <= i < size => Cplx(a[i], b[i]))
  }

  function RealParts(m: seq<Cplx>): (a: seq<real>)
    ensures |a| == |m|
  {
    seq(|m|, i requires 0 <= i < |m| => m[i].re)
  }

  /** Which part of an entry lies where: real part at even places, imaginary part behind it. */
  lemma CrossedParts(a: seq<real>, size: nat, m: seq<Cplx>)
    requires |m| == size && 2 * size <= |a|
    ensures Crossed(a, size) == m <==> forall i :: 0 <= i < size ==> m[i].re == a[2 * i] && m[i].im == a[2 * i + 1]
  {
    var c := Crossed(a, size);
    assert forall i :: 0 <= i < size ==> (c[i] == m[i] <==> m[i].re == a[2 * i] && m[i].im == a[2 * i + 1]);
    assert c == m <==> forall i :: 0 <= i < size ==> c[i] == m[i];
  }

  /** Imaginary part at even places, real part behind it. */
  lemma SwappedParts(a: seq<real>, size: nat, m: seq<Cplx>)
    requires |m| == size && 2 * size <= |a|
    ensures Swapped(a, size) == m <==> forall i :: 0 <= i < size ==> m[i].im == a[2 * i] && m[i].re == a[2 * i + 1]
  {
    var c := Swapped(a, size);
    assert forall i :: 0 <= i < size ==> (c[i] == m[i] <==> m[i].im == a[2 * i] && m[i].re == a[2 * i + 1]);
    assert c == m <==> forall i :: 0 <= i < size ==> c[i] == m[i];
  }

  /** Real parts in the first array, imaginary parts in the second. */
  lemma SplitParts(a: seq<real>, b: seq<real>, size: nat, m: seq<Cplx>)
    requires |m| == size && size <= |a| && size <= |b|
    ensures Split(a, b, size) == m <==> forall i :: 0 <= i < size ==> m[i].re == a[i] && m[i].im == b[i]
  {
    var c := Split(a, b, size);
    assert forall i :: 0 <= i < size ==> (c[i] == m[i] <==> m[i].re == a[i] && m[i].im == b[i]);
    assert c == m <==> forall i :: 0 <= i < size ==> c[i] == m[i];
  }

  /** The real parts alone. */
  lemma RealPartsAre(a: seq<real>, m: seq<Cplx>)
    requires |m| <= |a|
    ensures a[..|m|] == RealParts(m) <==> forall i :: 0 <= i < |m| ==> m[i].re == a[i]
  {
    var r := RealParts(m);
    assert forall i :: 0 <= i < |m| ==> (a[..|m|][i] == r[i] <==> m[i].re == a[i]);
    assert a[..|m|] == r <==> forall i :: 0 <= i < |m| ==> a[..|m|][i] == r[i];
  }

  // ----- The DMA channel -----

  /** A parameter block; addresses, counts and strides in elements. */
  datatype Block = Block(srcAddr: nat, dstAddr: nat, aCnt: nat, bCnt: nat, cCnt: nat,
                         srcB: nat, dstB: nat, srcC: nat, dstC: nat)

  function SrcAt(p: Block, c: nat, b: nat, a: nat): nat {
    p.srcAddr + c * p.srcC + b * p.srcB + a
  }

  function DstAt(p: Block, c: nat, b: nat, a: nat): nat {
    p.dstAddr + c * p.dstC + b * p.dstB + a
  }

  predicate InBlock(p: Block, c: nat, b: nat, a: nat) {
    c < p.cCnt && b < p.bCnt && a < p.aCnt
  }

  /** Every element has a place of its own in the destination. */
  ghost predicate Scatters(p: Block) {
    forall c: nat, b: nat, a: nat, x: nat, y: nat, z: nat {:trigger DstAt(p, c, b, a), DstAt(p, x, y, z)} ::
      InBlock(p, c, b, a) && InBlock(p, x, y, z) && DstAt(p, c, b, a) == DstAt(p, x, y, z) ==>
          c == x && b == y && a == z
  }

  ghost predicate Fits(p: Block, src: array<real>, dst: array<real>) {
    && (forall c: nat, b: nat, a: nat {:trigger SrcAt(p, c, b, a)} :: InBlock(p, c, b, a) ==>
       SrcAt(p, c, b, a) < src.Length)
    && (forall c: nat, b: nat, a: nat {:trigger DstAt(p, c, b, a)} :: InBlock(p, c, b, a) ==>
       DstAt(p, c, b, a) < dst.Length)
    && (src == dst ==>
        forall c: nat, b: nat, a: nat, x: nat, y: nat, z: nat {:trigger SrcAt(p, c, b, a), DstAt(p, x, y, z)} ::
          InBlock(p, c, b, a) && InBlock(p, x, y, z) ==> SrcAt(p, c, b, a) != DstAt(p, x, y, z))
  }

  /** Nothing of the block lies at place k of the destination; of its first events; of the
      first arrays of an event; of the first elements of an array. */
  ghost predicate Outside(p: Block, k: nat) {
    OutsideEvents(p, p.cCnt, k)
  }

  ghost predicate OutsideEvents(p: Block, cs: nat, k: nat) {
    forall c: nat, b: nat, a: nat {:trigger DstAt(p, c, b, a)} :: c < cs && InBlock(p, c, b, a) ==>
           DstAt(p, c, b, a) != k
  }

  ghost predicate OutsideArrays(p: Block, c: nat, bs: nat, k: nat) {
    forall b: nat, a: nat {:trigger DstAt(p, c, b, a)} :: b < bs && a < p.aCnt ==> DstAt(p, c, b, a) != k
  }

  ghost predicate OutsideElements(p: Block, c: nat, b: nat, n: nat, k: nat) {
    forall a: nat {:trigger DstAt(p, c, b, a)} :: a < n ==> DstAt(p, c, b, a) != k
  }

  /** One array of aCnt elements. */
  method TransferArray(p: Block, src: array<real>, dst: array<real>, c: nat, b: nat)
    requires c < p.cCnt && b < p.bCnt && Scatters(p) && Fits(p, src, dst)
    modifies dst
    ensures forall a: nat {:trigger DstAt(p, c, b, a)} :: a < p.aCnt ==>
            dst[DstAt(p, c, b, a)] == old(src[SrcAt(p, c, b, a)])
    ensures forall k: nat :: k < dst.Length && OutsideElements(p, c, b, p.aCnt, k) ==> dst[k] == old(dst[k])
  {
    for a: nat := 0 to p.aCnt
      invariant forall z: nat {:trigger DstAt(p, c, b, z)} :: z < a ==>
                dst[DstAt(p, c, b, z)] == old(src[SrcAt(p, c, b, z)])
      invariant forall k: nat :: k < dst.Length && OutsideElements(p, c, b, a, k) ==> dst[k] == old(dst[k])
    {
      assert InBlock(p, c, b, a);
      assert src[SrcAt(p, c, b, a)] == old(src[SrcAt(p, c, b, a)]);
      dst[DstAt(p, c, b, a)] := src[SrcAt(p, c, b, a)];
    }
  }

  /** One event: bCnt arrays. */
  method TransferEvent(p: Block, src: array<real>, dst: array<real>, c: nat)
    requires c < p.cCnt && Scatters(p) && Fits(p, src, dst)
    modifies dst
    ensures forall b: nat, a: nat {:trigger DstAt(p, c, b, a)} :: b < p.bCnt && a < p.aCnt ==>
              dst[DstAt(p, c, b, a)] == old(src[SrcAt(p, c, b, a)])
    ensures forall k: nat :: k < dst.Length && OutsideArrays(p, c, p.bCnt, k) ==> dst[k] == old(dst[k])
  {
    for b: nat := 0 to p.bCnt
      invariant forall y: nat, a: nat {:trigger DstAt(p, c, y, a)} :: y < b && a < p.aCnt ==>
                  dst[DstAt(p, c, y, a)] == old(src[SrcAt(p, c, y, a)])
      invariant forall k: nat :: k < dst.Length && OutsideArrays(p, c, b, k) ==> dst[k] == old(dst[k])
    {
      ghost var before := src[..];
      TransferArray(p, src, dst, c, b);
      forall a: nat | a < p.aCnt
        ensures before[SrcAt(p, c, b, a)] == old(src[SrcAt(p, c, b, a)])
      {
        assert InBlock(p, c, b, a);
      }
    }
  }

  /** The whole block: every element is copied to its place, nothing else is touched. */
  method Transfer(p: Block, src: array<real>, dst: array<real>)
    requires Scatters(p) && Fits(p, src, dst)
    modifies dst
    ensures forall c: nat, b: nat, a: nat {:trigger DstAt(p, c, b, a)} :: InBlock(p, c, b, a) ==>
              dst[DstAt(p, c, b, a)] == old(src[SrcAt(p, c, b, a)])
    ensures forall k: nat :: k < dst.Length && Outside(p, k) ==> dst[k] == old(dst[k])
  {
    for c: nat := 0 to p.cCnt
      invariant forall x: nat, b: nat, a: nat {:trigger DstAt(p, x, b, a)} :: x < c && InBlock(p, x, b, a) ==>
                  dst[DstAt(p, x, b, a)] == old(src[SrcAt(p, x, b, a)])
      invariant forall k: nat :: k < dst.Length && OutsideEvents(p, c, k) ==> dst[k] == old(dst[k])
    {
      ghost var before := src[..];
      TransferEvent(p, src, dst, c);
      forall b: nat, a: nat | b < p.bCnt && a < p.aCnt
        ensures before[SrcAt(p, c, b, a)] == old(src[SrcAt(p, c, b, a)])
      {
        assert InBlock(p, c, b, a);
      }
    }
  }

  // ----- Blocks that transpose -----

  /** Elements of `size` parts, srcStep apart in the rows and dstStep apart in the columns. */
  function Transposing(srcAddr: nat, srcStep: nat, dstAddr: nat, dstStep: nat, size: nat, n: nat, rows: nat): Block {
    Block(srcAddr, dstAddr, size, n, rows, srcStep, rows * dstStep, n * srcStep, dstStep)
  }

  lemma Distribute(c: nat, b: nat, n: nat, step: nat)
    ensures c * (n * step) + b * step == step * (c * n + b)
  {
    assert c * (n * step) == step * (c * n);
  }

  /** Where a transposing block finds and puts the entry of row c and column b. */
  lemma Places(p: Block, srcAddr: nat, srcStep: nat, dstAddr: nat, dstStep: nat, size: nat, n: nat, rows: nat, c: nat,
               b: nat, a: nat)
    requires p == Transposing(srcAddr, srcStep, dstAddr, dstStep, size, n, rows)
    ensures SrcAt(p, c, b, a) == srcAddr + srcStep * (c * n + b) + a
    ensures DstAt(p, c, b, a) == dstAddr + dstStep * (b * rows + c) + a
  {
    Distribute(c, b, n, srcStep);
    Distribute(b, c, rows, dstStep);
    assert c * p.dstC == c * dstStep && b * p.dstB == b * (rows * dstStep);
  }

  lemma TransposingScatters(srcAddr: nat, srcStep: nat, dstAddr: nat, dstStep: nat, size: nat, n: nat, rows: nat)
    requires size <= dstStep
    ensures Scatters(Transposing(srcAddr, srcStep, dstAddr, dstStep, size, n, rows))
  {
    var p := Transposing(srcAddr, srcStep, dstAddr, dstStep, size, n, rows);
    forall c: nat, b: nat, a: nat, x: nat, y: nat, z: nat {:trigger DstAt(p, c, b, a), DstAt(p, x, y, z)} |
      InBlock(p, c, b, a) && InBlock(p, x, y, z) && DstAt(p, c, b, a) == DstAt(p, x, y, z)
      ensures c == x && b == y && a == z
    {
      Places(p, srcAddr, srcStep, dstAddr, dstStep, size, n, rows, c, b, a);
      Places(p, srcAddr, srcStep, dstAddr, dstStep, size, n, rows, x, y, z);
      SamePlace(b * rows + c, a, y * rows + x, z, dstStep);
      SamePlace(b, c, y, x, rows);
    }
  }

  lemma SamePlace(q: nat, k: nat, r: nat, l: nat, n: nat)
    requires k < n && l < n && n * q + k == n * r + l
    ensures q == r && k == l
  {
    DivMod(q, k, n);
    DivMod(r, l, n);
  }

  function Spot(addr: nat, step: nat, i: nat, a: nat): nat {
    addr + step * i + a
  }

  /** Place k is not among the entries of a matrix laid out from addr on. */
  ghost predicate Missed(addr: nat, step: nat, size: nat, count: nat, k: nat) {
    forall i: nat, a: nat {:trigger Spot(addr, step, i, a)} :: i < count && a < size ==> Spot(addr, step, i, a) != k
  }

  /** The matrix of `count` entries lies at addr within an array: behind `skip` elements and
      in steps that hold all parts of an entry. */
  predicate LiesIn(addr: nat, step: nat, size: nat, count: nat, skip: nat, length: nat) {
    skip <= addr && addr - skip + size <= step && skip + step * count <= length
  }

  lemma SpotLies(addr: nat, step: nat, size: nat, count: nat, skip: nat, length: nat, i: nat, a: nat)
    requires LiesIn(addr, step, size, count, skip, length) && i < count && a < size
    ensures skip <= Spot(addr, step, i, a) < skip + step * count <= length
  {
    MulMono(i + 1, count, step);
    assert (i + 1) * step == step * i + step;
  }

  /** Copy a matrix of n-element rows into columns. */
  method CopyTransposed(src: array<real>, srcAddr: nat, srcStep: nat, ghost srcSkip: nat,
                        dst: array<real>, dstAddr: nat, dstStep: nat, ghost dstSkip: nat, size: nat, n: nat, rows: nat)
    requires LiesIn(srcAddr, srcStep, size, Size(n, rows), srcSkip, src.Length)
    requires LiesIn(dstAddr, dstStep, size, Size(n, rows), dstSkip, dst.Length)
    requires src == dst ==> dstSkip + dstStep * (Size(n, rows)) <= srcSkip
    modifies dst
    ensures forall i: nat, a: nat {:trigger Spot(dstAddr, dstStep, i, a)} :: i < Size(n, rows) && a < size ==>
              && Spot(dstAddr, dstStep, i, a) < dst.Length
              && Spot(srcAddr, srcStep, From(i, n, rows), a) < src.Length
    ensures forall i: nat, a: nat {:trigger Spot(dstAddr, dstStep, i, a)} :: i < Size(n, rows) && a < size ==>
              dst[Spot(dstAddr, dstStep, i, a)] == old(src[Spot(srcAddr, srcStep, From(i, n, rows), a)])
    ensures forall k: nat :: k < dst.Length && Missed(dstAddr, dstStep, size, Size(n, rows), k) ==>
            dst[k] == old(dst[k])
  {
    hide Size, Scatters, Fits, SrcAt, DstAt, From, Spot, Outside, Missed, InBlock;
    var p := Transposing(srcAddr, srcStep, dstAddr, dstStep, size, n, rows);
    TransposingScatters(srcAddr, srcStep, dstAddr, dstStep, size, n, rows);
    TransposingFits(p, src, srcAddr, srcStep, srcSkip, dst, dstAddr, dstStep, dstSkip, size, n, rows);
    Transfer(p, src, dst);
    forall i: nat, a: nat {:trigger Spot(dstAddr, dstStep, i, a)} | i < Size(n, rows) && a < size
      ensures Spot(dstAddr, dstStep, i, a) < dst.Length && Spot(srcAddr, srcStep, From(i, n, rows), a) < src.Length
      ensures dst[Spot(dstAddr, dstStep, i, a)] == old(src[Spot(srcAddr, srcStep, From(i, n, rows), a)])
    {
      var c, b := FindInBlock(p, srcAddr, srcStep, dstAddr, dstStep, size, n, rows, i, a);
      FitsAt(p, src, dst, c, b, a);
    }
    forall k: nat | k < dst.Length && Missed(dstAddr, dstStep, size, Size(n, rows), k)
      ensures Outside(p, k)
    {
      MissedIsOutside(p, srcAddr, srcStep, dstAddr, dstStep, size, n, rows, k);
    }
  }

  lemma FindInBlock(p: Block, srcAddr: nat, srcStep: nat, dstAddr: nat, dstStep: nat, size: nat, n: nat, rows: nat,
                    i: nat, a: nat)
    returns (c: nat, b: nat)
    requires p == Transposing(srcAddr, srcStep, dstAddr, dstStep, size, n, rows) && i < Size(n, rows) && a < size
    ensures InBlock(p, c, b, a)
    ensures DstAt(p, c, b, a) == Spot(dstAddr, dstStep, i, a)
    ensures SrcAt(p, c, b, a) == Spot(srcAddr, srcStep, From(i, n, rows), a)
  {
    InTransposed(i, n, rows);
    c, b := i % rows, i / rows;
    Places(p, srcAddr, srcStep, dstAddr, dstStep, size, n, rows, c, b, a);
  }

  lemma FitsAt(p: Block, src: array<real>, dst: array<real>, c: nat, b: nat, a: nat)
    requires Fits(p, src, dst) && InBlock(p, c, b, a)
    ensures SrcAt(p, c, b, a) < src.Length && DstAt(p, c, b, a) < dst.Length
  {
  }

  /** Where entry i of the transposed matrix comes from. */
  function From(i: nat, n: nat, rows: nat): nat {
    if rows == 0 then 0 else (i % rows) * n + i / rows
  }

  lemma TransposingFits(p: Block, src: array<real>, srcAddr: nat, srcStep: nat, srcSkip: nat,
                        dst: array<real>, dstAddr: nat, dstStep: nat, dstSkip: nat, size: nat, n: nat, rows: nat)
    requires p == Transposing(srcAddr, srcStep, dstAddr, dstStep, size, n, rows)
    requires LiesIn(srcAddr, srcStep, size, Size(n, rows), srcSkip, src.Length)
    requires LiesIn(dstAddr, dstStep, size, Size(n, rows), dstSkip, dst.Length)
    requires src == dst ==> dstSkip + dstStep * (Size(n, rows)) <= srcSkip
    ensures Fits(p, src, dst)
  {
    forall c: nat, b: nat, a: nat | InBlock(p, c, b, a)
      ensures srcSkip <= SrcAt(p, c, b, a) < src.Length
      ensures DstAt(p, c, b, a) < dstSkip + dstStep * (Size(n, rows)) <= dst.Length
    {
      Places(p, srcAddr, srcStep, dstAddr, dstStep, size, n, rows, c, b, a);
      InMatrix(c, rows, b, n);
      InMatrix(b, n, c, rows);
      SpotLies(srcAddr, srcStep, size, Size(n, rows), srcSkip, src.Length, c * n + b, a);
      SpotLies(dstAddr, dstStep, size, Size(n, rows), dstSkip, dst.Length, b * rows + c, a);
    }
  }

  lemma MissedIsOutside(p: Block, srcAddr: nat, srcStep: nat, dstAddr: nat, dstStep: nat, size: nat, n: nat, rows: nat,
                        k: nat)
    requires p == Transposing(srcAddr, srcStep, dstAddr, dstStep, size, n, rows)
    requires Missed(dstAddr, dstStep, size, Size(n, rows), k)
    ensures Outside(p, k)
  {
    forall c: nat, b: nat, a: nat {:trigger DstAt(p, c, b, a)} | InBlock(p, c, b, a)
      ensures DstAt(p, c, b, a) != k
    {
      Places(p, srcAddr, srcStep, dstAddr, dstStep, size, n, rows, c, b, a);
      InMatrix(b, n, c, rows);
      assert DstAt(p, c, b, a) == Spot(dstAddr, dstStep, b * rows + c, a);
    }
  }

  // ----- The transform hardware -----

  /** Every row of a matrix transformed. */
  ghost function AllRows(f: Transform, m: seq<Cplx>, n: nat, rows: nat): (t: seq<Cplx>)
    requires KeepsLength(f) && |m| == Size(n, rows)
    ensures |t| == Size(n, rows)
  {
    seq(Size(n, rows), i requires 0 <= i < Size(n, rows) => RowsAt(f, m, n, rows, i))
  }

  ghost function RowsAt(f: Transform, m: seq<Cplx>, n: nat, rows: nat, i: nat): Cplx
    requires KeepsLength(f) && |m| == Size(n, rows) && i < Size(n, rows)
  {
    InTransposed(i, rows, n);
    f(Row(m, n, rows, i / n))[i % n]
  }

  lemma PassIsTransposed(f: Transform, m: seq<Cplx>, n: nat, rows: nat, i: nat)
    requires KeepsLength(f) && |m| == Size(n, rows) && i < Size(n, rows)
    ensures From(i, n, rows) < Size(n, rows) && Pass(f, m, n, rows)[i] == AllRows(f, m, n, rows)[From(i, n, rows)]
  {
    InTransposed(i, n, rows);
    InMatrix(i % rows, rows, i / rows, n);
    assert Pass(f, m, n, rows)[i] == PassAt(f, m, n, rows, i);
  }

  class FftManager {
    const fft: Transform
    const ifft: Transform
    const temp: array<real>
    const half: nat

    ghost predicate Valid() {
      KeepsLength(fft) && KeepsLength(ifft) && temp.Length == 2 * half
    }

    constructor (fft: Transform, ifft: Transform, maxWidth: nat, maxHeight: nat)
      requires KeepsLength(fft) && KeepsLength(ifft)
      ensures Valid() && fresh(temp) && half == maxWidth * maxHeight && this.fft == fft && this.ifft == ifft
    {
      this.fft, this.ifft := fft, ifft;
      half := maxWidth * maxHeight;
      temp := new real[2 * (maxWidth * maxHeight)];
    }

    /** One transformed row, real parts in the lower half of temp, imaginary ones in the upper. */
    method PutSplit(at: nat, out: seq<Cplx>)
      requires Valid() && at + |out| <= half
      modifies temp
      ensures forall i: nat {:trigger out[i]} :: i < |out| ==>
              temp[at + i] == out[i].re && temp[half + (at + i)] == out[i].im
      ensures forall i: nat :: i < temp.Length && !(at <= i < at + |out|) && !(half + at <= i < half + at + |out|)
                ==> temp[i] == old(temp[i])
    {
      for k: nat := 0 to |out|
        invariant forall i: nat {:trigger out[i]} :: i < k ==>
                  temp[at + i] == out[i].re && temp[half + (at + i)] == out[i].im
        invariant forall i: nat :: i < temp.Length && !(at <= i < at + k) && !(half + at <= i < half + at + k)
                    ==> temp[i] == old(temp[i])
      {
        temp[at + k], temp[half + (at + k)] := out[k].re, out[k].im;
      }
    }

    ghost predicate HoldsSplit(t: seq<Cplx>, count: nat)
      requires Valid() && count <= |t| && |t| <= half
      reads temp
    {
      forall i: nat {:trigger t[i]} :: i < count ==> temp[i] == t[i].re && temp[half + i] == t[i].im
    }

    /** Rows in split order; the imaginary parts are those in temp, or zero. */
    method TransformSplit(src: array<real>, imaginary: bool, n: nat, rows: nat)
      requires Valid() && src != temp && Size(n, rows) <= half && Size(n, rows) <= src.Length
      modifies temp
      ensures HoldsSplit(AllRows(fft, SplitInput(old(src[..]), old(temp[..]), imaginary, Size(n, rows)), n, rows),
              Size(n, rows))
    {
      ghost var m := SplitInput(src[..], temp[..], imaginary, Size(n, rows));
      ghost var t := AllRows(fft, m, n, rows);
      for r: nat := 0 to rows
        invariant r * n <= Size(n, rows) && HoldsSplit(t, r * n)
        invariant forall i: nat :: r * n <= i < half ==> temp[i] == old(temp[i])
      {
        hide AllRows, HoldsSplit;
        RowFits(r, rows, n);
        assert (r + 1) * n == r * n + n;
        var at := r * n;
        var row := seq(n, k requires 0 <= k < n reads src, temp =>
                       Cplx(src[at + k], if imaginary then temp[at + k] else 0.0));
        assert row == Row(m, n, rows, r);
        var out := fft(row);
        PutSplit(at, out);
        forall k: nat | k < n
          ensures t[at + k] == out[k]
        {
          RowOfAll(fft, m, n, rows, r, k);
        }
        ExtendSplit(t, at, out);
      }
    }

    lemma ExtendSplit(t: seq<Cplx>, at: nat, out: seq<Cplx>)
      requires Valid() && at + |out| <= |t| <= half && HoldsSplit(t, at)
      requires forall k: nat :: k < |out| ==> t[at + k] == out[k]
      requires forall i: nat {:trigger out[i]} :: i < |out| ==>
               temp[at + i] == out[i].re && temp[half + (at + i)] == out[i].im
      ensures HoldsSplit(t, at + |out|)
    {
      forall i: nat {:trigger t[i]} | at <= i < at + |out|
        ensures temp[i] == t[i].re && temp[half + i] == t[i].im
      {
        assert t[at + (i - at)] == out[i - at];
      }
    }

    /** One transformed row, real and imaginary parts next to each other. */
    method PutCrossed(at: nat, out: seq<Cplx>)
      requires Valid() && at + |out| <= half
      modifies temp
      ensures forall i: nat {:trigger out[i]} :: i < |out| ==>
              temp[2 * (at + i)] == out[i].re && temp[2 * (at + i) + 1] == out[i].im
      ensures forall i: nat :: i < temp.Length && !(2 * at <= i < 2 * (at + |out|)) ==> temp[i] == old(temp[i])
    {
      for k: nat := 0 to |out|
        invariant forall i: nat {:trigger out[i]} :: i < k ==>
                  temp[2 * (at + i)] == out[i].re && temp[2 * (at + i) + 1] == out[i].im
        invariant forall i: nat :: i < temp.Length && !(2 * at <= i < 2 * (at + k)) ==> temp[i] == old(temp[i])
      {
        temp[2 * (at + k)], temp[2 * (at + k) + 1] := out[k].re, out[k].im;
      }
    }

    ghost predicate HoldsCrossed(t: seq<Cplx>, count: nat)
      requires Valid() && count <= |t| && |t| <= half
      reads temp
    {
      forall i: nat {:trigger t[i]} :: i < count ==> temp[2 * i] == t[i].re && temp[2 * i + 1] == t[i].im
    }

    /** Rows in crossed order, forward or inverse. */
    method TransformCrossed(f: Transform, src: array<real>, n: nat, rows: nat)
      requires Valid() && KeepsLength(f) && src != temp && Size(n, rows) <= half && 2 * Size(n, rows) <= src.Length
      modifies temp
      ensures HoldsCrossed(AllRows(f, Crossed(old(src[..]), Size(n, rows)), n, rows), Size(n, rows))
    {
      ghost var m := Crossed(src[..], Size(n, rows));
      ghost var t := AllRows(f, m, n, rows);
      for r: nat := 0 to rows
        invariant r * n <= Size(n, rows) && HoldsCrossed(t, r * n)
      {
        hide AllRows;
        RowFits(r, rows, n);
        assert (r + 1) * n == r * n + n;
        var at := r * n;
        var row := seq(n, k requires 0 <= k < n reads src => Cplx(src[2 * (at + k)], src[2 * (at + k) + 1]));
        assert row == Row(m, n, rows, r);
        var out := f(row);
        PutCrossed(at, out);
        forall k: nat | k < n
          ensures t[at + k] == out[k]
        {
          RowOfAll(f, m, n, rows, r, k);
        }
        ExtendCrossed(t, at, out);
      }
    }

    lemma ExtendCrossed(t: seq<Cplx>, at: nat, out: seq<Cplx>)
      requires Valid() && at + |out| <= |t| <= half && HoldsCrossed(t, at)
      requires forall k: nat :: k < |out| ==> t[at + k] == out[k]
      requires forall i: nat {:trigger out[i]} :: i < |out| ==>
               temp[2 * (at + i)] == out[i].re && temp[2 * (at + i) + 1] == out[i].im
      ensures HoldsCrossed(t, at + |out|)
    {
      forall i: nat {:trigger t[i]} | at <= i < at + |out|
        ensures temp[2 * i] == t[i].re && temp[2 * i + 1] == t[i].im
      {
        assert t[at + (i - at)] == out[i - at];
      }
    }

    // ----- The passes -----

    predicate Holds(n: nat, rows: nat) {
      Size(n, rows) <= half
    }

    /** Real parts from and to memory, imaginary parts in temp. */
    method FftR2RT(src: array<real>, dst: array<real>, n: nat, rows: nat)
      requires Valid() && Holds(n, rows) && src != temp && dst != temp && Size(n, rows) <= src.Length &&
               Size(n, rows) <= dst.Length
      modifies temp, dst
      ensures Split(dst[..], temp[..], Size(n, rows)) ==
              Pass(fft, old(Split(src[..], temp[..], Size(n, rows))), n, rows)
      ensures forall k: nat :: Size(n, rows) <= k < dst.Length ==> dst[k] == old(dst[k])
    {
      hide Size, From, Missed;
      ghost var m := Split(src[..], temp[..], Size(n, rows));
      ghost var t := AllRows(fft, m, n, rows);
      TransformSplit(src, true, n, rows);
      hide AllRows, Pass;
      CopyTransposed(temp, 0, 1, 0, dst, 0, 1, 0, 1, n, rows);
      forall i: nat | i < Size(n, rows)
        ensures dst[i] == Pass(fft, m, n, rows)[i].re
      {
        PassIsTransposed(fft, m, n, rows, i);
        assert Spot(0, 1, i, 0) == i;
      }
      CopyTransposed(temp, half, 1, half, temp, 0, 1, 0, 1, n, rows);
      forall i: nat | i < Size(n, rows)
        ensures temp[i] == Pass(fft, m, n, rows)[i].im
      {
        PassIsTransposed(fft, m, n, rows, i);
        assert Spot(0, 1, i, 0) == i;
      }
      BeyondMissedSingle(dst.Length, Size(n, rows));
    }

    /** Real parts in, complex numbers out.  The destination is cleared first: in the same
        space nothing of the source is left to transform. */
    method FftR2CT(src: array<real>, dst: array<real>, n: nat, rows: nat)
      requires Valid() && Holds(n, rows) && src != temp && dst != temp
      requires Size(n, rows) <= src.Length && 2 * Size(n, rows) <= dst.Length
      modifies temp, dst
      ensures src != dst ==> Crossed(dst[..], Size(n, rows)) == Pass(fft, Reals(src[..], Size(n, rows)), n, rows)
      ensures src == dst ==> Crossed(dst[..], Size(n, rows)) == Pass(fft, Blank(Size(n, rows)), n, rows)
      ensures forall k: nat :: 2 * Size(n, rows) <= k < dst.Length ==> dst[k] == old(dst[k])
    {
      Clear(dst, 2 * Size(n, rows));
      ghost var m := Reals(src[..], Size(n, rows));
      assert src == dst ==> m == Blank(Size(n, rows));
      assert src != dst ==> m == old(Reals(src[..], Size(n, rows)));
      TransformSplit(src, false, n, rows);
      assert SplitInput(src[..], temp[..], false, Size(n, rows)) == m;
      hide Size, AllRows, Pass, Reals, Blank, Crossed;
      PlaceCrossed(dst, n, rows, m);
    }

    /** The transformed rows, real and imaginary parts apart, become columns of pairs. */
    method PlaceCrossed(dst: array<real>, n: nat, rows: nat, ghost m: seq<Cplx>)
      requires Valid() && Holds(n, rows) && dst != temp && 2 * Size(n, rows) <= dst.Length
      requires |m| == Size(n, rows) && HoldsSplit(AllRows(fft, m, n, rows), Size(n, rows))
      modifies dst
      ensures Crossed(dst[..], Size(n, rows)) == Pass(fft, m, n, rows)
      ensures forall k: nat :: 2 * Size(n, rows) <= k < dst.Length ==> dst[k] == old(dst[k])
    {
      hide Size, From, Missed, AllRows, Pass;
      CopyTransposed(temp, 0, 1, 0, dst, 0, 2, 0, 1, n, rows);
      forall i: nat | i < Size(n, rows)
        ensures dst[2 * i] == Pass(fft, m, n, rows)[i].re
      {
        PassIsTransposed(fft, m, n, rows, i);
        assert Spot(0, 2, i, 0) == 2 * i;
      }
      CopyTransposed(temp, half, 1, half, dst, 1, 2, 0, 1, n, rows);
      forall i: nat | i < Size(n, rows)
        ensures dst[2 * i] == Pass(fft, m, n, rows)[i].re && dst[2 * i + 1] == Pass(fft, m, n, rows)[i].im
      {
        PassIsTransposed(fft, m, n, rows, i);
        assert Spot(1, 2, i, 0) == 2 * i + 1;
        EvenMissesOdd(Size(n, rows), i);
      }
      BeyondMissed(dst.Length, Size(n, rows));
    }

    method Clear(dst: array<real>, size: nat)
      requires size <= dst.Length
      modifies dst
      ensures forall i: nat :: i < size ==> dst[i] == 0.0
      ensures forall i: nat :: size <= i < dst.Length ==> dst[i] == old(dst[i])
    {
      for k: nat := 0 to size
        invariant forall i: nat :: i < k ==> dst[i] == 0.0
        invariant forall i: nat :: k <= i < dst.Length ==> dst[i] == old(dst[i])
      {
        dst[k] := 0.0;
      }
    }

    /** Complex numbers in; out with the imaginary part first. */
    method FftC2CT(src: array<real>, dst: array<real>, n: nat, rows: nat)
      requires Valid() && Holds(n, rows) && src != temp && dst != temp
      requires 2 * Size(n, rows) <= src.Length && 2 * Size(n, rows) <= dst.Length
      modifies temp, dst
      ensures Swapped(dst[..], Size(n, rows)) == Pass(fft, old(Crossed(src[..], Size(n, rows))), n, rows)
      ensures forall k: nat :: 2 * Size(n, rows) <= k < dst.Length ==> dst[k] == old(dst[k])
    {
      hide Size, From, Missed;
      ghost var m := Crossed(src[..], Size(n, rows));
      TransformCrossed(fft, src, n, rows);
      CopyTransposed(temp, 0, 2, 0, dst, 1, 2, 0, 1, n, rows);
      CopyTransposed(temp, 1, 2, 0, dst, 0, 2, 0, 1, n, rows);
      forall i: nat | i < Size(n, rows)
        ensures dst[2 * i + 1] == Pass(fft, m, n, rows)[i].re && dst[2 * i] == Pass(fft, m, n, rows)[i].im
      {
        PassIsTransposed(fft, m, n, rows, i);
        assert Spot(0, 2, i, 0) == 2 * i && Spot(1, 2, i, 0) == 2 * i + 1;
        EvenMissesOdd(Size(n, rows), i);
      }
      BeyondMissed(dst.Length, Size(n, rows));
    }

    /** Complex numbers in and out, forward or inverse. */
    method CrossedPass(f: Transform, src: array<real>, dst: array<real>, n: nat, rows: nat)
      requires Valid() && KeepsLength(f) && Holds(n, rows) && src != temp && dst != temp
      requires 2 * Size(n, rows) <= src.Length && 2 * Size(n, rows) <= dst.Length
      modifies temp, dst
      ensures Crossed(dst[..], Size(n, rows)) == Pass(f, old(Crossed(src[..], Size(n, rows))), n, rows)
      ensures forall k: nat :: 2 * Size(n, rows) <= k < dst.Length ==> dst[k] == old(dst[k])
    {
      hide Size, From, Missed;
      ghost var m := Crossed(src[..], Size(n, rows));
      TransformCrossed(f, src, n, rows);
      CopyTransposed(temp, 0, 2, 0, dst, 0, 2, 0, 2, n, rows);
      forall i: nat | i < Size(n, rows)
        ensures dst[2 * i] == Pass(f, m, n, rows)[i].re && dst[2 * i + 1] == Pass(f, m, n, rows)[i].im
      {
        PassIsTransposed(f, m, n, rows, i);
        assert Spot(0, 2, i, 0) == 2 * i && Spot(0, 2, i, 1) == 2 * i + 1;
      }
      BeyondMissed(dst.Length, Size(n, rows));
    }

    method FftC2CTN(src: array<real>, dst: array<real>, n: nat, rows: nat)
      requires Valid() && Holds(n, rows) && src != temp && dst != temp
      requires 2 * Size(n, rows) <= src.Length && 2 * Size(n, rows) <= dst.Length
      modifies temp, dst
      ensures Crossed(dst[..], Size(n, rows)) == Pass(fft, old(Crossed(src[..], Size(n, rows))), n, rows)
      ensures forall k: nat :: 2 * Size(n, rows) <= k < dst.Length ==> dst[k] == old(dst[k])
    {
      CrossedPass(fft, src, dst, n, rows);
    }

    method IfftC2CT(src: array<real>, dst: array<real>, n: nat, rows: nat)
      requires Valid() && Holds(n, rows) && src != temp && dst != temp
      requires 2 * Size(n, rows) <= src.Length && 2 * Size(n, rows) <= dst.Length
      modifies temp, dst
      ensures Crossed(dst[..], Size(n, rows)) == Pass(ifft, old(Crossed(src[..], Size(n, rows))), n, rows)
      ensures forall k: nat :: 2 * Size(n, rows) <= k < dst.Length ==> dst[k] == old(dst[k])
    {
      CrossedPass(ifft, src, dst, n, rows);
    }

    /** Complex numbers in, real parts out. */
    method IfftC2RT(src: array<real>, dst: array<real>, n: nat, rows: nat)
      requires Valid() && Holds(n, rows) && src != temp && dst != temp
      requires 2 * Size(n, rows) <= src.Length && Size(n, rows) <= dst.Length
      modifies temp, dst
      ensures dst[..Size(n, rows)] == RealParts(Pass(ifft, old(Crossed(src[..], Size(n, rows))), n, rows))
      ensures forall k: nat :: Size(n, rows) <= k < dst.Length ==> dst[k] == old(dst[k])
    {
      hide Size, From, Missed;
      ghost var m := Crossed(src[..], Size(n, rows));
      TransformCrossed(ifft, src, n, rows);
      CopyTransposed(temp, 0, 2, 0, dst, 0, 1, 0, 1, n, rows);
      forall i: nat | i < Size(n, rows)
        ensures dst[i] == Pass(ifft, m, n, rows)[i].re
      {
        PassIsTransposed(ifft, m, n, rows, i);
        assert Spot(0, 1, i, 0) == i;
      }
      BeyondMissedSingle(dst.Length, Size(n, rows));
    }

    // ----- The commands of the server -----

    /** FFT2d_R2R: the real parts of the two-dimensional transform. */
    method Fft2dR2R(src: array<real>, dst: array<real>, w: nat, h: nat)
      requires Valid() && Holds(w, h) && src != temp && dst != temp && Size(w, h) <= src.Length &&
               Size(w, h) <= dst.Length
      modifies temp, dst
      ensures dst[..Size(w, h)] == RealParts(TwoPasses(fft, old(Reals(src[..], Size(w, h))), w, h))
      ensures forall k: nat :: Size(w, h) <= k < dst.Length ==> dst[k] == old(dst[k])
    {
      hide Pass;
      Clear(temp, Size(w, h));
      assert Split(src[..], temp[..], Size(w, h)) == Reals(src[..], Size(w, h));
      FftR2RT(src, dst, w, h);
      FftR2RT(dst, dst, h, w);
      ghost var m := Split(dst[..], temp[..], Size(w, h));
      assert dst[..Size(w, h)] == RealParts(m);
    }

    /** FFT2d_R2C: the two-dimensional transform, imaginary part first. */
    method Fft2dR2C(src: array<real>, dst: array<real>, w: nat, h: nat)
      requires Valid() && Holds(w, h) && src != temp && dst != temp
      requires Size(w, h) <= src.Length && 2 * Size(w, h) <= dst.Length
      modifies temp, dst
      ensures src != dst ==> Swapped(dst[..], Size(w, h)) == TwoPasses(fft, Reals(src[..], Size(w, h)), w, h)
      ensures src == dst ==> Swapped(dst[..], Size(w, h)) == TwoPasses(fft, Blank(Size(w, h)), w, h)
      ensures forall k: nat :: 2 * Size(w, h) <= k < dst.Length ==> dst[k] == old(dst[k])
    {
      hide Pass;
      FftR2CT(src, dst, w, h);
      FftC2CT(dst, dst, h, w);
    }

    /** FFT2d_R2C_N: the same with the real part first. */
    method Fft2dR2CN(src: array<real>, dst: array<real>, w: nat, h: nat)
      requires Valid() && Holds(w, h) && src != temp && dst != temp
      requires Size(w, h) <= src.Length && 2 * Size(w, h) <= dst.Length
      modifies temp, dst
      ensures src != dst ==> Crossed(dst[..], Size(w, h)) == TwoPasses(fft, Reals(src[..], Size(w, h)), w, h)
      ensures src == dst ==> Crossed(dst[..], Size(w, h)) == TwoPasses(fft, Blank(Size(w, h)), w, h)
      ensures forall k: nat :: 2 * Size(w, h) <= k < dst.Length ==> dst[k] == old(dst[k])
    {
      hide Pass;
      FftR2CT(src, dst, w, h);
      FftC2CTN(dst, dst, h, w);
    }

    /** IFFT2d_C2R: the real parts of the inverse transform; the source is left with the result
        of its first pass. */
    method Ifft2dC2R(src: array<real>, dst: array<real>, w: nat, h: nat)
      requires Valid() && Holds(w, h) && src != temp && dst != temp
      requires 2 * Size(w, h) <= src.Length && Size(w, h) <= dst.Length
      modifies temp, src, dst
      ensures dst[..Size(w, h)] == RealParts(TwoPasses(ifft, old(Crossed(src[..], Size(w, h))), w, h))
      ensures src != dst ==> Crossed(src[..], Size(w, h)) == Pass(ifft, old(Crossed(src[..], Size(w, h))), w, h)
      ensures forall k: nat :: Size(w, h) <= k < dst.Length && (src != dst || 2 * Size(w, h) <= k) ==>
              dst[k] == old(dst[k])
    {
      hide Pass;
      IfftC2CT(src, src, w, h);
      IfftC2RT(src, dst, h, w);
    }
  }

  lemma EvenMissesOdd(count: nat, i: nat)
    ensures Missed(1, 2, 1, count, 2 * i) && Missed(0, 2, 1, count, 2 * i + 1)
  {
  }

  lemma BeyondMissedSingle(length: nat, count: nat)
    ensures forall k: nat :: count <= k < length ==> Missed(0, 1, 1, count, k)
  {
  }

  lemma BeyondMissed(length: nat, count: nat)
    ensures forall k: nat :: 2 * count <= k < length ==>
      Missed(0, 2, 1, count, k) && Missed(1, 2, 1, count, k) && Missed(0, 2, 2, count, k)
  {
  }

  lemma RowOfAll(f: Transform, m: seq<Cplx>, n: nat, rows: nat, r: nat, k: nat)
    requires KeepsLength(f) && |m| == Size(n, rows) && r < rows && k < n
    ensures r * n + k < Size(n, rows) && AllRows(f, m, n, rows)[r * n + k] == f(Row(m, n, rows, r))[k]
  {
    InMatrix(r, rows, k, n);
    assert AllRows(f, m, n, rows)[r * n + k] == RowsAt(f, m, n, rows, r * n + k);
  }

  function SplitInput(src: seq<real>, temp: seq<real>, imaginary: bool, size: nat): (m: seq<Cplx>)
    requires size <= |src| && size <= |temp|
    ensures |m| == size
  {
    if imaginary then Split(src, temp, size) else Reals(src, size)
  }
}
