/** What several models use: all but the last of a sequence, images of bytes, division. */
module Shared {

  function Butlast<T>(s: seq<T>): seq<T>
    requires s != []
  {
    s[..|s| - 1]
  }

  ghost predicate Bytes(a: array2<int>)
    reads a
  {
    forall y, x :: 0 <= y < a.Length0 && 0 <= x < a.Length1 ==> 0 <= a[y, x] <= 255
  }

  lemma MulMono(a: int, b: int, n: int)
    requires a <= b && 0 <= n
    ensures a * n <= b * n
  {
  }

  /** A multiple of n that is smaller than n is 0. */
  lemma SmallMultiple(d: int, n: int)
    requires 0 < n && -n < d * n < n
    ensures d == 0
  {
    assert d >= 1 ==> d * n >= n by {
      if d >= 1 {
        MulMono(1, d, n);
      }
    }
    assert d <= -1 ==> d * n <= -n by {
      if d <= -1 {
        MulMono(d, -1, n);
      }
    }
  }

  lemma DivMod(q: nat, k: nat, n: nat)
    requires k < n
    ensures (q * n + k) / n == q && (q * n + k) % n == k
  {
    var x := q * n + k;
    var d := x / n - q;
    assert d * n == (x / n) * n - q * n;
    assert x == (x / n) * n + x % n;
    SmallMultiple(d, n);
  }
}
