/** The exponential back-off, in Go's 64-bit arithmetic. */
module Backoff {

  const TWO63 := 0x8000_0000_0000_0000
  const TWO64 := 0x1_0000_0000_0000_0000

  function Pow(b: nat, n: nat): nat {
    if n == 0 then 1 else b * Pow(b, n - 1)
  }

  /** An int64: what is left of an integer after wrap-around. */
  function Wrap(x: int): (r: int)
    ensures -TWO63 <= r < TWO63
    ensures -TWO63 <= x < TWO63 ==> r == x
  {
    (x + TWO63) % TWO64 - TWO63
  }

  /** retryWait * (1 << retryCount) */
  function Wait(retryWait: int, retryCount: nat): int {
    Wrap(retryWait * Wrap(Pow(2, retryCount)))
  }

  /** Waits one after the other, each retry advancing the counter by two. */
  function Waits(retryWait: int, retryCount: nat, retries: nat): seq<int>
    decreases retries
  {
    if retries == 0 then [] else [Wait(retryWait, retryCount)] + Waits(retryWait, retryCount + 2, retries - 1)
  }

  function Sum(xs: seq<int>): int {
    if xs == [] then 0 else xs[0] + Sum(xs[1..])
  }

  lemma {:induction false} FourPositive(n: nat)
    ensures Pow(4, n) > 0
  {
    if n > 0 {
      FourPositive(n - 1);
    }
  }

  lemma {:induction false} FourIsTwoTwice(k: nat)
    ensures Pow(2, 2 * k) == Pow(4, k)
  {
    if k > 0 {
      FourIsTwoTwice(k - 1);
      assert Pow(2, 2 * k) == 2 * Pow(2, 2 * k - 1);
    }
  }

  lemma {:induction false} FourMonotone(j: nat, k: nat)
    requires j <= k
    ensures Pow(4, j) <= Pow(4, k)
  {
    if j < k {
      FourMonotone(j, k - 1);
      FourPositive(k - 1);
    }
  }

  /** The k-th wait is W times 4 to the k exactly as long as that is an int64. */
  lemma WaitInRange(w: int, k: nat)
    requires 0 <= w
    ensures Wait(w, 2 * k) == w * Pow(4, k) <==> w * Pow(4, k) < TWO63
  {
    if w * Pow(4, k) < TWO63 {
      FourIsTwoTwice(k);
      FourPositive(k);
      if w > 0 {
        Grows(w, Pow(4, k));
      }
    }
  }

  lemma Grows(w: int, p: nat)
    requires w >= 1
    ensures p <= w * p
  {
  }

  /** Wrap-around takes a multiple of 2^64 away. */
  lemma WrapTakes(x: int) returns (k: int)
    ensures x == Wrap(x) + k * TWO64
  {
    k := (x + TWO63) / TWO64;
  }

  /** Whatever W and the counter are: an int64 that differs from W * 2^n by a multiple of 2^64. */
  lemma WaitWraps(w: int, n: nat) returns (k: int)
    ensures -0x8000_0000_0000_0000 <= Wait(w, n) < 0x8000_0000_0000_0000
    ensures w * Pow(2, n) == Wait(w, n) + k * 0x1_0000_0000_0000_0000
  {
    var i := WrapTakes(Pow(2, n));
    var j := WrapTakes(w * Wrap(Pow(2, n)));
    k := w * i + j;
    Spread(w, Wrap(Pow(2, n)), i, TWO64);
  }

  lemma Spread(w: int, p: int, i: int, m: int)
    ensures w * (p + i * m) == w * p + (w * i) * m
  {
  }

  /** The waits from the k-th on, r of them, are int64 values. */
  predicate InRange(w: int, k: nat, r: nat) {
    r > 0 ==> w * Pow(4, k + r - 1) < TWO63
  }

  lemma FirstFits(w: int, k: nat, r: nat)
    requires 0 <= w && r > 0 && InRange(w, k, r)
    ensures w * Pow(4, k) < TWO63
  {
    FourMonotone(k, k + r - 1);
    Scale(w, Pow(4, k), Pow(4, k + r - 1));
  }

  lemma WaitsFirst(w: int, k: nat, r: nat)
    requires 0 <= w && r > 0 && InRange(w, k, r)
    ensures Waits(w, 2 * k, r) == [w * Pow(4, k)] + Waits(w, 2 * (k + 1), r - 1)
    ensures InRange(w, k + 1, r - 1)
  {
    FirstFits(w, k, r);
    WaitInRange(w, k);
    assert k + 1 + (r - 1) - 1 == k + r - 1;
  }

  lemma {:induction false} WaitsAt(w: int, k: nat, r: nat, j: nat)
    requires 0 <= w && InRange(w, k, r) && j < r
    ensures |Waits(w, 2 * k, r)| == r && Waits(w, 2 * k, r)[j] == w * Pow(4, k + j)
    decreases r
  {
    WaitsFirst(w, k, r);
    if j > 0 {
      WaitsAt(w, k + 1, r - 1, j - 1);
    } else if r > 1 {
      WaitsAt(w, k + 1, r - 1, 0);
    }
  }

  lemma SumFirst(x: int, xs: seq<int>)
    ensures Sum([x] + xs) == x + Sum(xs)
  {
    assert ([x] + xs)[1..] == xs;
  }

  lemma {:induction false} WaitsSum(w: int, k: nat, r: nat)
    requires 0 <= w && InRange(w, k, r)
    ensures 3 * Sum(Waits(w, 2 * k, r)) == w * (Pow(4, k + r) - Pow(4, k))
    decreases r
  {
    if r > 0 {
      WaitsFirst(w, k, r);
      SumFirst(w * Pow(4, k), Waits(w, 2 * (k + 1), r - 1));
      WaitsSum(w, k + 1, r - 1);
      assert k + 1 + (r - 1) == k + r;
      PowStep(k);
      Telescope(w, Pow(4, k), Pow(4, k + r));
    }
  }

  lemma PowStep(k: nat)
    ensures Pow(4, k + 1) == 4 * Pow(4, k)
  {
  }

  /** The waits of r retries are W, 4W, 16W, ..., and three times their sum is W * (4^r - 1). */
  lemma WaitsInRange(w: int, k: nat, r: nat)
    requires 0 <= w && InRange(w, k, r)
    ensures |Waits(w, 2 * k, r)| == r
    ensures forall j :: 0 <= j < r ==> Waits(w, 2 * k, r)[j] == w * Pow(4, k + j)
    ensures 3 * Sum(Waits(w, 2 * k, r)) == w * (Pow(4, k + r) - Pow(4, k))
  {
    if r > 0 {
      WaitsAt(w, k, r, 0);
    }
    forall j | 0 <= j < r
      ensures Waits(w, 2 * k, r)[j] == w * Pow(4, k + j)
    {
      WaitsAt(w, k, r, j);
    }
    WaitsSum(w, k, r);
  }

  /** W, 4W, 16W, ..., with the sum that goes with it. */
  ghost predicate TimesFour(waits: seq<int>, w: int) {
    && (forall k :: 0 <= k < |waits| ==> waits[k] == w * Pow(4, k))
    && 3 * Sum(waits) == w * (Pow(4, |waits|) - 1)
  }

  lemma WaitsFromZero(w: int, r: nat)
    requires 0 <= w && InRange(w, 0, r)
    ensures |Waits(w, 0, r)| == r && TimesFour(Waits(w, 0, r), w)
  {
    WaitsInRange(w, 0, r);
  }

  lemma Scale(w: int, p: nat, q: nat)
    requires 0 <= w && p <= q
    ensures w * p <= w * q
  {
  }

  lemma Telescope(w: int, p: nat, q: nat)
    ensures 3 * (w * p) + w * (q - 4 * p) == w * (q - p)
  {
  }
}
