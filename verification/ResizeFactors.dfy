/** Fixed-point factors for the hardware image resizer.

    A block of nSrcLen pixels is sampled at 136 places a fixed step apart.  The step is a
    fraction whose denominator is the smallest power of two good enough for the last sample;
    width and height are then brought to a common denominator.  Floating point is taken as
    exact. */
module ResizeFactors {

  const RESIZE_DST_LEN := 136

  function Pow2(k: nat): (p: nat)
    ensures p >= 1
  {
    if k == 0 then 1 else 2 * Pow2(k - 1)
  }

  /** Conversion to an integer drops the fraction, towards zero. */
  function Truncate(x: real): (t: int)
    ensures -1.0 < t as real - x < 1.0
  {
    if x >= 0.0 then x.Floor else -((-x).Floor)
  }

  function Abs(x: real): real {
    if x >= 0.0 then x else -x
  }

  /** The length the step divides: the whole of a long source, one less of a short one. */
  function Span(nSrcLen: int): int {
    if nSrcLen >= RESIZE_DST_LEN then nSrcLen else nSrcLen - 1
  }

  /** The exact step. */
  function Eta(nSrcLen: int): real {
    Span(nSrcLen) as real / 136.0
  }

  function Numerator(nSrcLen: int, k: nat): int {
    Truncate(Eta(nSrcLen) * Pow2(k) as real)
  }

  /** Where sample i is taken. */
  function Position(nSrcLen: int, k: nat, i: nat): real {
    Numerator(nSrcLen, k) as real * i as real / Pow2(k) as real
  }

  /** How far sample i is off with k fractional bits. */
  function Error(nSrcLen: int, k: nat, i: nat): real {
    Abs(Position(nSrcLen, k, i) - Eta(nSrcLen) * i as real)
  }

  /** The last of the 136 samples is less than half a pixel off. */
  predicate GoodEnough(nSrcLen: int, k: nat) {
    Error(nSrcLen, k, RESIZE_DST_LEN - 1) < 0.5
  }

  /** Eight bits are always enough. */
  lemma EightBitsSuffice(nSrcLen: int)
    ensures GoodEnough(nSrcLen, 8)
  {
    assert Pow2(8) == 256 by {
      assert Pow2(4) == 16;
    }
    var p := Span(nSrcLen);
    var x := Eta(nSrcLen) * 256.0;
    var t := Numerator(nSrcLen, 8);
    assert 17.0 * x == (32 * p) as real;
    assert -17.0 < (17 * t) as real - (32 * p) as real < 17.0;
    assert -16 <= 17 * t - 32 * p <= 16;
    var delta := (t * 135) as real / 256.0 - Eta(nSrcLen) * 135.0;
    assert delta * 4352.0 == ((17 * t - 32 * p) * 135) as real;
  }

  /** Two pixels do need eight: with fewer the step is cut down to zero. */
  lemma EightBitsNeeded(k: nat)
    requires k < 8
    ensures !GoodEnough(2, k)
  {
    Pow2Below(k, 7);
    assert Pow2(7) == 128 by {
      assert Pow2(3) == 8;
    }
    assert Eta(2) * Pow2(k) as real < 1.0;
    assert Numerator(2, k) == 0;
    assert Position(2, k, 135) == 0.0 / Pow2(k) as real == 0.0;
  }

  lemma {:induction false} Pow2Below(k: nat, l: nat)
    requires k <= l
    ensures Pow2(k) <= Pow2(l)
  {
    if k < l {
      Pow2Below(k, l - 1);
    }
  }

  lemma {:induction false} Pow2Splits(k: nat, l: nat)
    ensures Pow2(k + l) == Pow2(k) * Pow2(l)
  {
    if l > 0 {
      Pow2Splits(k, l - 1);
      assert Pow2(k) * Pow2(l) == 2 * (Pow2(k) * Pow2(l - 1));
    }
  }

  lemma Cancel(x: real, y: real, b: real)
    requires b != 0.0 && x * b == y * b
    ensures x == y
  {
    assert (x - y) * b == 0.0;
  }

  lemma MulDiv(q: real, a: real, b: real, c: real)
    requires b != 0.0 && q == a / b
    ensures a * c / b == q * c
  {
    assert q * b == a;
    assert (q * c) * b == a * c;
    Cancel(a * c / b, q * c, b);
  }

  lemma MulMono(x: real, y: real, r: real)
    requires x <= y && 0.0 <= r
    ensures x * r <= y * r
  {
  }

  /** The step as it is used. */
  function Step(nSrcLen: int, k: nat): real {
    Numerator(nSrcLen, k) as real / Pow2(k) as real
  }

  /** How far the step used is off. */
  function Drift(nSrcLen: int, k: nat): real {
    Step(nSrcLen, k) - Eta(nSrcLen)
  }

  lemma PositionIs(nSrcLen: int, k: nat, i: nat)
    ensures Position(nSrcLen, k, i) == Step(nSrcLen, k) * i as real
  {
    hide Numerator, Pow2;
    var num, den, q := Numerator(nSrcLen, k) as real, Pow2(k) as real, Step(nSrcLen, k);
    MulDiv(q, num, den, i as real);
    assert Position(nSrcLen, k, i) == q * i as real;
  }

  lemma ErrorIs(nSrcLen: int, k: nat, i: nat)
    ensures Position(nSrcLen, k, i) == Step(nSrcLen, k) * i as real
    ensures Error(nSrcLen, k, i) == Abs(Drift(nSrcLen, k) * i as real)
  {
    hide Position, Step, Eta, Numerator, Pow2;
    PositionIs(nSrcLen, k, i);
    Spread(Drift(nSrcLen, k), Step(nSrcLen, k), Eta(nSrcLen), i as real);
  }

  lemma Spread(d: real, a: real, b: real, r: real)
    requires d == a - b
    ensures d * r == a * r - b * r
  {
  }

  lemma Commute(a: real, b: real)
    ensures a * b == b * a
  {
  }

  lemma Scaled(d: real, r: real, last: real)
    requires 0.0 <= r <= last
    ensures Abs(d * r) <= Abs(d * last)
  {
    Commute(d, r);
    Commute(d, last);
    if d >= 0.0 {
      ScaledUp(d, r, last);
    } else {
      ScaledUp(-d, r, last);
      Negated(d, r);
      Negated(d, last);
    }
  }

  lemma ScaledUp(d: real, r: real, last: real)
    requires 0.0 <= r <= last && d >= 0.0
    ensures 0.0 <= r * d <= last * d
  {
    MulMono(r, last, d);
  }

  lemma Negated(d: real, r: real)
    ensures r * (-d) == -(r * d)
  {
  }

  /** The error grows with the sample, so every sample is as good as the last one. */
  lemma EverySampleGood(nSrcLen: int, k: nat, i: nat)
    requires GoodEnough(nSrcLen, k) && i < RESIZE_DST_LEN
    ensures Error(nSrcLen, k, i) < 0.5
  {
    hide Drift, Error;
    var last: nat := RESIZE_DST_LEN - 1;
    ErrorIs(nSrcLen, k, i);
    ErrorIs(nSrcLen, k, last);
    Scaled(Drift(nSrcLen, k), i as real, last as real);
    assert Error(nSrcLen, k, last) < 0.5;
    assert Error(nSrcLen, k, i) <= Error(nSrcLen, k, last);
  }

  /** Sample i lies within the source. */
  predicate InSource(nSrcLen: int, k: nat, i: nat) {
    0.0 <= Position(nSrcLen, k, i) <= (nSrcLen - 1) as real
  }

  /** All samples lie within the source, whatever the denominator, exactly when there is one. */
  lemma SamplesInSource(nSrcLen: int, k: nat)
    ensures (forall i: nat :: i < RESIZE_DST_LEN ==> InSource(nSrcLen, k, i)) <==> nSrcLen >= 1
  {
    if nSrcLen >= 1 {
      forall i: nat | i < RESIZE_DST_LEN
        ensures InSource(nSrcLen, k, i)
      {
        SampleInSource(nSrcLen, k, i);
      }
    } else {
      ErrorIs(nSrcLen, k, 0);
      assert !InSource(nSrcLen, k, 0);
    }
  }

  /** The step used is never longer than the exact one. */
  lemma StepRange(nSrcLen: int, k: nat, last: real)
    requires nSrcLen >= 1 && last == 135.0
    ensures 0.0 <= Step(nSrcLen, k) <= Eta(nSrcLen) && Eta(nSrcLen) * last <= (nSrcLen - 1) as real
  {
    assert Eta(nSrcLen) * last <= (nSrcLen - 1) as real by {
      LastInside(nSrcLen);
    }
    var num, den, eta := Numerator(nSrcLen, k) as real, Pow2(k) as real, Eta(nSrcLen);
    assert eta >= 0.0;
    MulMono(0.0, eta, den);
    assert 0.0 <= num <= eta * den;
    var q := num / den;
    assert q * den == num;
    Quotient(q, eta, den);
    Quotient(0.0, q, den);
  }

  lemma LastInside(nSrcLen: int)
    requires nSrcLen >= 1
    ensures Eta(nSrcLen) * 135.0 <= (nSrcLen - 1) as real
  {
  }

  lemma Quotient(x: real, y: real, den: real)
    requires den > 0.0 && x * den <= y * den
    ensures x <= y
  {
    assert (y - x) * den >= 0.0;
  }

  lemma SampleInSource(nSrcLen: int, k: nat, i: nat)
    requires nSrcLen >= 1 && i < RESIZE_DST_LEN
    ensures InSource(nSrcLen, k, i)
  {
    hide Step, Eta, Error, Pow2, Numerator, Position;
    ErrorIs(nSrcLen, k, i);
    var last := 135.0;
    StepRange(nSrcLen, k, last);
    Between(Step(nSrcLen, k), Eta(nSrcLen), i as real, last);
  }

  lemma Between(q: real, eta: real, r: real, last: real)
    requires 0.0 <= q <= eta && 0.0 <= r <= last
    ensures 0.0 <= q * r <= eta * last
  {
    MulMono(q, eta, r);
    MulMono(r, last, eta);
    Commute(eta, r);
    Commute(eta, last);
  }

  /** The step in units of 1/den. */
  function StepIn(eta: real, den: nat): int {
    Truncate(eta * den as real)
  }

  /** What the loop tests. */
  function LastError(eta: real, den: nat): real
    requires den > 0
  {
    Abs((StepIn(eta, den) * (RESIZE_DST_LEN - 1)) as real / den as real - eta * (RESIZE_DST_LEN - 1) as real)
  }

  lemma TestIs(nSrcLen: int, k: nat)
    ensures StepIn(Eta(nSrcLen), Pow2(k)) == Numerator(nSrcLen, k)
    ensures GoodEnough(nSrcLen, k) <==> LastError(Eta(nSrcLen), Pow2(k)) < 0.5
  {
    hide Pow2, Eta;
    var t := StepIn(Eta(nSrcLen), Pow2(k));
    assert t == Numerator(nSrcLen, k);
    assert (t * 135) as real == t as real * 135.0;
  }

  lemma StartsWith(nSrcLen: int)
    ensures Pow2(0) == 1
    ensures Eta(nSrcLen) == if nSrcLen >= RESIZE_DST_LEN then nSrcLen as real / 136.0 else (nSrcLen - 1) as real / 136.0
  {
  }

  lemma Pow2Next(k: nat)
    ensures Pow2(k + 1) == Pow2(k) * 2
  {
  }

  datatype Factors = Factors(num: int, logDen: nat)

  /** The step with the fewest fractional bits that are good enough. */
  ghost predicate BestFactors(nSrcLen: int, f: Factors) {
    && f.num == Numerator(nSrcLen, f.logDen)
    && GoodEnough(nSrcLen, f.logDen)
    && forall k: nat :: k < f.logDen ==> !GoodEnough(nSrcLen, k)
  }

  /** The search ends, and never takes more than eight bits. */
  method CalcResizeFactors(nSrcLen: int) returns (f: Factors)
    ensures BestFactors(nSrcLen, f) && f.logDen <= 8
  {
    var nBits: nat, den: nat := 0, 1;
    var eta: real;
    if nSrcLen >= RESIZE_DST_LEN {
      eta := nSrcLen as real / 136.0;
    } else {
      eta := (nSrcLen - 1) as real / 136.0;
    }
    hide GoodEnough, Pow2, Eta, StepIn, LastError, Numerator;
    StartsWith(nSrcLen);
    EightBitsSuffice(nSrcLen);
    while true
      invariant nBits <= 8 && den == Pow2(nBits) && eta == Eta(nSrcLen)
      invariant forall k: nat :: k < nBits ==> !GoodEnough(nSrcLen, k)
      decreases 8 - nBits
    {
      var delta := LastError(eta, den);
      TestIs(nSrcLen, nBits);
      if delta < 0.5 {
        break;
      }
      Pow2Next(nBits);
      nBits := nBits + 1;
      den := den * 2;
    }
    TestIs(nSrcLen, nBits);
    f := Factors(StepIn(eta, den), nBits);
  }

  function Ratio(num: int, logDen: nat): real {
    num as real / Pow2(logDen) as real
  }

  /** What is handed to the hardware: two numerators over one denominator. */
  datatype Scales = Scales(scaleW: int, scaleH: int, scaleN: nat)

  predicate RatiosKept(fw: Factors, fh: Factors, s: Scales) {
    Ratio(s.scaleW, s.scaleN) == Ratio(fw.num, fw.logDen) && Ratio(s.scaleH, s.scaleN) == Ratio(fh.num, fh.logDen)
  }

  /** The numerator with the smaller denominator is widened, but the denominator handed on is
      always that of the width. */
  function CommonDenominator(fw: Factors, fh: Factors): Scales {
    if fw.logDen > fh.logDen then Scales(fw.num, fh.num * Pow2(fw.logDen - fh.logDen), fw.logDen)
    else Scales(fw.num * Pow2(fh.logDen - fw.logDen), fh.num, fw.logDen)
  }

  /** Both steps stay what they were exactly when the width has at least as many bits, or both
      steps are zero; otherwise the step of the width is too long. */
  lemma RatiosKeptExactly(fw: Factors, fh: Factors)
    ensures var s := CommonDenominator(fw, fh);
      && (RatiosKept(fw, fh, s) <==> fw.logDen >= fh.logDen || (fw.num == 0 && fh.num == 0))
      && (fw.logDen < fh.logDen ==>
            Ratio(s.scaleW, s.scaleN) == Ratio(fw.num, fw.logDen) * Pow2(fh.logDen - fw.logDen) as real)
  {
    assert Pow2(0) == 1;
    hide Pow2, Ratio;
    if fw.logDen > fh.logDen {
      Widens(fh.num, fh.logDen, fw.logDen - fh.logDen);
    } else if fw.logDen < fh.logDen {
      Stretches(fw.num, fw.logDen, fh.logDen - fw.logDen);
      Shortens(fh.num, fw.logDen, fh.logDen - fw.logDen);
    }
  }

  lemma RealProduct(a: int, b: int)
    ensures (a * b) as real == a as real * b as real
  {
  }

  lemma Widens(num: int, k: nat, l: nat)
    ensures Ratio(num * Pow2(l), k + l) == Ratio(num, k)
  {
    Pow2Splits(k, l);
    hide Pow2;
    var n, a, b := num as real, Pow2(k) as real, Pow2(l) as real;
    RealProduct(num, Pow2(l));
    RealProduct(Pow2(k), Pow2(l));
    var q := n / a;
    assert q * a == n;
    assert q * (a * b) == n * b;
    Cancel(n * b / (a * b), q, a * b);
  }

  lemma Pow2AtLeast2(k: nat)
    requires k > 0
    ensures Pow2(k) >= 2
  {
  }

  lemma FixedPoint(q: real, b: real)
    requires b >= 2.0
    ensures q * b == q <==> q == 0.0
  {
    if q * b == q {
      assert q * (b - 1.0) == 0.0 * (b - 1.0);
      Cancel(q, 0.0, b - 1.0);
    }
  }

  lemma QuotientZero(q: real, n: real, a: real)
    requires a > 0.0 && q == n / a
    ensures q == 0.0 <==> n == 0.0
  {
    assert q * a == n;
    if n == 0.0 {
      Cancel(q, 0.0, a);
    }
  }

  /** A widened numerator over the old denominator. */
  lemma Stretches(num: int, k: nat, l: nat)
    requires l > 0
    ensures Ratio(num * Pow2(l), k) == Ratio(num, k) * Pow2(l) as real
    ensures Ratio(num * Pow2(l), k) == Ratio(num, k) <==> num == 0
  {
    hide Pow2;
    Pow2AtLeast2(l);
    var n, a, b, q := num as real, Pow2(k) as real, Pow2(l) as real, Ratio(num, k);
    RealProduct(num, Pow2(l));
    assert Ratio(num * Pow2(l), k) == n * b / a;
    MulDiv(q, n, a, b);
    assert Ratio(num * Pow2(l), k) == q * b;
    FixedPoint(q, b);
    QuotientZero(q, n, a);
  }

  /** A numerator over a denominator that is too small. */
  lemma Shortens(num: int, k: nat, l: nat)
    requires l > 0
    ensures Ratio(num, k) == Ratio(num, k + l) <==> num == 0
  {
    hide Pow2, Ratio;
    Widens(num, k, l);
    Stretches(num, k + l, l);
  }

  /** A step of zero is found for a single pixel only, and without fractional bits. */
  lemma OnlyOnePixel(nSrcLen: int, k: nat)
    requires GoodEnough(nSrcLen, k) && Numerator(nSrcLen, k) == 0
    ensures nSrcLen == 1
  {
    ErrorIs(nSrcLen, k, 135);
    assert Step(nSrcLen, k) == 0.0 / Pow2(k) as real == 0.0;
    assert Abs((0.0 - Eta(nSrcLen)) * 135.0) < 0.5;
  }

  lemma OnePixel(k: nat)
    ensures Numerator(1, k) == 0 && GoodEnough(1, k)
  {
    ErrorIs(1, k, 135);
    assert Eta(1) == 0.0;
    assert Step(1, k) == 0.0 / Pow2(k) as real == 0.0;
  }

  const MAX_BLOCK := 32768

  datatype Start = TooLarge | Started(fw: Factors, fh: Factors, scales: Scales)

  /** A block larger than the hardware's memory is refused; of any other the scales keep both
      steps exactly when the width has at least as many fractional bits as the height. */
  method StartHwFhog(width: int, height: int) returns (r: Start)
    ensures r.TooLarge? <==> width * height > MAX_BLOCK
    ensures r.Started? ==> BestFactors(width, r.fw) && BestFactors(height, r.fh)
    ensures r.Started? ==> r.scales == CommonDenominator(r.fw, r.fh)
    ensures r.Started? ==> (RatiosKept(r.fw, r.fh, r.scales) <==> r.fw.logDen >= r.fh.logDen)
  {
    if width * height > MAX_BLOCK {
      return TooLarge;
    }
    var fw := CalcResizeFactors(width);
    var fh := CalcResizeFactors(height);
    var numW, numH := fw.num, fh.num;
    if fw.logDen > fh.logDen {
      numH := numH * Pow2(fw.logDen - fh.logDen);
    } else if fw.logDen < fh.logDen {
      numW := numW * Pow2(fh.logDen - fw.logDen);
    }
    KeptExactly(width, height, fw, fh);
    r := Started(fw, fh, Scales(numW, numH, fw.logDen));
  }

  lemma KeptExactly(width: int, height: int, fw: Factors, fh: Factors)
    requires BestFactors(width, fw) && BestFactors(height, fh)
    ensures RatiosKept(fw, fh, CommonDenominator(fw, fh)) <==> fw.logDen >= fh.logDen
  {
    RatiosKeptExactly(fw, fh);
    hide GoodEnough, Numerator, RatiosKept;
    if fw.num == 0 && fh.num == 0 {
      OnlyOnePixel(width, fw.logDen);
      OnlyOnePixel(height, fh.logDen);
      OnePixel(0);
    }
  }

  /** A block of 136 by 2 is one whose scales come out wrong: its width needs no fractional
      bits, its height eight. */
  lemma WideBlock()
    ensures BestFactors(136, Factors(1, 0)) && BestFactors(2, Factors(1, 8)) && 136 * 2 <= MAX_BLOCK
    ensures !RatiosKept(Factors(1, 0), Factors(1, 8), CommonDenominator(Factors(1, 0), Factors(1, 8)))
  {
    RatiosKeptExactly(Factors(1, 0), Factors(1, 8));
    hide RatiosKept, CommonDenominator;
    assert Eta(136) == 1.0;
    EightBitsSuffice(2);
    forall k: nat | k < 8
      ensures !GoodEnough(2, k)
    {
      EightBitsNeeded(k);
    }
    assert Pow2(8) == 256 by {
      assert Pow2(4) == 16;
    }
    assert Eta(2) * 256.0 == 256.0 / 136.0;
  }
}
