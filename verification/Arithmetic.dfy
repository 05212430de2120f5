/** Products and quotients of natural numbers. */
module Arithmetic {
  /** The product; as a function of its own it keeps nonlinear terms out of the way. */
  function Times(a: nat, b: nat): nat {
    a * b
  }

  lemma MulMonotone(a: nat, b: nat, c: nat)
    requires a <= b
    ensures a * c <= b * c
  {
  }

  lemma DivUnique(x: nat, b: nat, q: nat)
    requires b > 0 && Times(q, b) <= x < Times(q, b) + b
    ensures x / b == q
  {
    var p := x / b;
    assert x == p * b + x % b;
    if p < q {
      MulMonotone(p + 1, q, b);
    } else if p > q {
      MulMonotone(q + 1, p, b);
    }
  }

  lemma ModOf(q: nat, r: nat, n: nat)
    requires r < n
    ensures (q * n + r) % n == r
  {
    DivUnique(q * n + r, n, q);
  }

  lemma ModBound(i: nat, w: nat)
    requires w > 0
    ensures i % w < w && i % w <= i
  {
    assert i == i / w * w + i % w;
    MulMonotone(0, i / w, w);
  }

  /** A multiple of `w` beyond `i` is beyond the whole stretch of `w` that `i` lies in. */
  lemma WholeStretch(i: nat, w: nat, n: nat)
    requires w > 0 && i < n && n % w == 0
    ensures i - i % w + w <= n
  {
    var c, d := i / w, n / w;
    assert i == c * w + i % w && n == d * w;
    if c >= d {
      MulMonotone(d, c, w);
    } else {
      MulMonotone(c + 1, d, w);
    }
  }
}
