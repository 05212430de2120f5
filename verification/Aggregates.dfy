/** sum, count, max and min as mergeable aggregates: folds in the wrap-around arithmetic of the column
    type, which do not depend on the order of the values. */
module Aggregates {
  import opened Sequences

  datatype Monoid = SUM | MAX | MIN

  datatype Width = INT | INT64

  function Span(w: Width): (s: int)
    ensures s > 0
  {
    if w == INT then 0x1_0000_0000 else 0x1_0000_0000_0000_0000
  }

  function Low(w: Width): int {
    if w == INT then -0x8000_0000 else -0x8000_0000_0000_0000
  }

  predicate Fits(w: Width, x: int) {
    Low(w) <= x < Low(w) + Span(w)
  }

  /** Two's complement wrap-around. */
  function Wrap(w: Width, x: int): (r: int)
    ensures Fits(w, r)
  {
    (x - Low(w)) % Span(w) + Low(w)
  }

  function Zero(m: Monoid, w: Width): (z: int)
    ensures Fits(w, z)
  {
    match m
    case SUM => 0
    case MAX => Low(w)
    case MIN => Low(w) + Span(w) - 1
  }

  function Op(m: Monoid, w: Width, a: int, b: int): (r: int)
    requires Fits(w, a) && Fits(w, b)
    ensures Fits(w, r)
  {
    match m
    case SUM => Wrap(w, a + b)
    case MAX => if a < b then b else a
    case MIN => if a < b then a else b
  }

  predicate AllFit(w: Width, xs: seq<int>) {
    forall k :: 0 <= k < |xs| ==> Fits(w, xs[k])
  }

  function Fold(m: Monoid, w: Width, xs: seq<int>): (r: int)
    requires AllFit(w, xs)
    ensures Fits(w, r)
  {
    if xs == [] then Zero(m, w)
    else Op(m, w, Fold(m, w, xs[..|xs| - 1]), xs[|xs| - 1])
  }

  /** `count()` is the sum of one INT64 1 per tuple. */
  function Ones(n: nat): (r: seq<int>)
    ensures |r| == n && AllFit(INT64, r)
  {
    seq(n, _ => 1)
  }

  lemma WrapStep(w: Width, x: int, k: int)
    ensures Wrap(w, x + k * Span(w)) == Wrap(w, x)
  {
    var s := Span(w);
    assert (x - Low(w) + k * s) % s == (x - Low(w)) % s;
  }

  lemma WrapIsStep(w: Width, x: int) returns (k: int)
    ensures Wrap(w, x) == x + k * Span(w)
  {
    k := -((x - Low(w)) / Span(w));
  }

  lemma WrapOfFit(w: Width, x: int)
    requires Fits(w, x)
    ensures Wrap(w, x) == x
  {
  }

  /** Sums of integers wrap around at 32 bits, and those of 64-bit integers and counts at 64 bits. */
  lemma WrapIff(x: int, r: int)
    ensures Wrap(INT, x) == r <==> -0x8000_0000 <= r <= 0x7fff_ffff && (x - r) % 0x1_0000_0000 == 0
    ensures Wrap(INT64, x) == r <==>
            -0x8000_0000_0000_0000 <= r <= 0x7fff_ffff_ffff_ffff && (x - r) % 0x1_0000_0000_0000_0000 == 0
  {
  }

  lemma SumAssociates(w: Width, a: int, b: int, c: int)
    ensures Wrap(w, Wrap(w, a + b) + c) == Wrap(w, a + Wrap(w, b + c))
  {
    var k := WrapIsStep(w, a + b);
    var l := WrapIsStep(w, b + c);
    WrapStep(w, a + b + c, k);
    WrapStep(w, a + b + c, l);
    assert a + b + k * Span(w) + c == a + b + c + k * Span(w);
    assert a + (b + c + l * Span(w)) == a + b + c + l * Span(w);
  }

  lemma OpLaws(m: Monoid, w: Width, a: int, b: int, c: int)
    requires Fits(w, a) && Fits(w, b) && Fits(w, c)
    ensures Op(m, w, Op(m, w, a, b), c) == Op(m, w, a, Op(m, w, b, c))
    ensures Op(m, w, a, b) == Op(m, w, b, a)
    ensures Op(m, w, a, Zero(m, w)) == a
  {
    SumAssociates(w, a, b, c);
    WrapOfFit(w, a);
  }

  lemma {:induction false} FoldAppend(m: Monoid, w: Width, xs: seq<int>, ys: seq<int>)
    requires AllFit(w, xs) && AllFit(w, ys)
    ensures AllFit(w, xs + ys)
    ensures Fold(m, w, xs + ys) == Op(m, w, Fold(m, w, xs), Fold(m, w, ys))
    decreases |ys|
  {
    hide Op, Zero;
    if ys == [] {
      assert xs + ys == xs;
      OpLaws(m, w, Fold(m, w, xs), 0, 0);
    } else {
      var n := |ys| - 1;
      assert (xs + ys)[..|xs + ys| - 1] == xs + ys[..n];
      FoldAppend(m, w, xs, ys[..n]);
      OpLaws(m, w, Fold(m, w, xs), Fold(m, w, ys[..n]), ys[n]);
    }
  }

  /** Any element may be folded in last. */
  lemma FoldRemove(m: Monoid, w: Width, xs: seq<int>, i: nat)
    requires AllFit(w, xs) && i < |xs|
    ensures AllFit(w, xs[..i] + xs[i + 1..])
    ensures Fold(m, w, xs) == Op(m, w, Fold(m, w, xs[..i] + xs[i + 1..]), xs[i])
  {
    hide Op, Zero;
    var a, x, b := xs[..i], [xs[i]], xs[i + 1..];
    assert xs == (a + x) + b;
    FoldAppend(m, w, a + x, b);
    FoldAppend(m, w, a, x);
    FoldAppend(m, w, a, b);
    FoldOne(m, w, xs[i]);
    var fa, fb := Fold(m, w, a), Fold(m, w, b);
    OpLaws(m, w, fa, xs[i], fb);
    OpLaws(m, w, xs[i], fb, 0);
    OpLaws(m, w, fa, fb, xs[i]);
  }

  lemma FoldOne(m: Monoid, w: Width, x: int)
    requires Fits(w, x)
    ensures Fold(m, w, [x]) == x
  {
    OpLaws(m, w, x, Zero(m, w), 0);
    assert [x][..0] == [];
  }

  /** The fold depends on the multiset only. */
  lemma {:induction false} FoldPermutes(m: Monoid, w: Width, xs: seq<int>, ys: seq<int>)
    requires AllFit(w, xs) && AllFit(w, ys) && multiset(xs) == multiset(ys)
    ensures Fold(m, w, xs) == Fold(m, w, ys)
    decreases |xs|
  {
    hide Op, Zero;
    if xs == [] {
      assert |multiset(ys)| == 0;
    } else {
      var n := |xs| - 1;
      var i := SameElement(xs, ys);
      FoldRemove(m, w, ys, i);
      FoldPermutes(m, w, xs[..n], ys[..i] + ys[i + 1..]);
    }
  }

  /** The fold means what its name says: a maximum or minimum of the values, and the sum of the
      values up to wrap-around; `count()` is the number of tuples. */
  lemma {:induction false} MaxIsMaximum(w: Width, xs: seq<int>)
    requires AllFit(w, xs) && xs != []
    ensures Fold(MAX, w, xs) in xs && forall k :: 0 <= k < |xs| ==> xs[k] <= Fold(MAX, w, xs)
    decreases |xs|
  {
    var n := |xs| - 1;
    if n > 0 {
      MaxIsMaximum(w, xs[..n]);
    }
  }

  lemma {:induction false} MinIsMinimum(w: Width, xs: seq<int>)
    requires AllFit(w, xs) && xs != []
    ensures Fold(MIN, w, xs) in xs && forall k :: 0 <= k < |xs| ==> Fold(MIN, w, xs) <= xs[k]
    decreases |xs|
  {
    var n := |xs| - 1;
    if n > 0 {
      MinIsMinimum(w, xs[..n]);
    }
  }

  function Total(xs: seq<int>): int {
    if xs == [] then 0 else Total(xs[..|xs| - 1]) + xs[|xs| - 1]
  }

  lemma {:induction false} SumIsTotal(w: Width, xs: seq<int>)
    requires AllFit(w, xs)
    ensures Fold(SUM, w, xs) == Wrap(w, Total(xs))
    decreases |xs|
  {
    if xs != [] {
      var n := |xs| - 1;
      SumIsTotal(w, xs[..n]);
      var k := WrapIsStep(w, Total(xs[..n]));
      WrapStep(w, Total(xs), k);
      assert Total(xs[..n]) + k * Span(w) + xs[n] == Total(xs) + k * Span(w);
    }
  }

  lemma {:induction false} CountIsLength(n: nat)
    ensures Fold(SUM, INT64, Ones(n)) == Wrap(INT64, n)
  {
    SumIsTotal(INT64, Ones(n));
    TotalOnes(n);
  }

  lemma {:induction false} TotalOnes(n: nat)
    ensures Total(Ones(n)) == n
  {
    if n > 0 {
      TotalOnes(n - 1);
      assert Ones(n)[..n - 1] == Ones(n - 1);
    }
  }
}
