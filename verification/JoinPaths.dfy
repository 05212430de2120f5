/** The paths that shaping is given, up to their final aggregation: selections, projections and hash joins
    of the probe side with build tables, which a path may first filter and project.  All of them treat
    the probe tuples one by one. */
module JoinPaths {
  import opened Streams

  datatype Op<!T> =
    | Select(keep: T -> bool)
    | Project(f: T -> T)
    | Join(table: nat, prepare: seq<T> -> seq<T>, matches: (T, T) -> bool, combine: (T, T) -> T)

  /** The combinations of one probe tuple with the matching tuples of a build table. */
  function Matches<T>(x: T, table: seq<T>, on: (T, T) -> bool, combine: (T, T) -> T): seq<T> {
    if table == [] then []
    else
      var y := table[|table| - 1];
      Matches(x, table[..|table| - 1], on, combine) + (if on(x, y) then [combine(x, y)] else [])
  }

  /** What one operator makes of one tuple. */
  function Apply<T>(op: Op<T>, x: T, bs: seq<seq<T>>): seq<T> {
    match op
    case Select(keep) => if keep(x) then [x] else []
    case Project(f) => [f(x)]
    case Join(k, prepare, on, combine) => if k < |bs| then Matches(x, prepare(bs[k]), on, combine) else []
  }

  function ApplyAll<T>(op: Op<T>, xs: seq<T>, bs: seq<seq<T>>): seq<T> {
    if xs == [] then []
    else ApplyAll(op, xs[..|xs| - 1], bs) + Apply(op, xs[|xs| - 1], bs)
  }

  function Eval<T>(ops: seq<Op<T>>, xs: seq<T>, bs: seq<seq<T>>): seq<T> {
    if ops == [] then xs
    else ApplyAll(ops[|ops| - 1], Eval(ops[..|ops| - 1], xs, bs), bs)
  }

  function PathOf<T>(ops: seq<Op<T>>): Path<T> {
    (xs, bs) => Eval(ops, xs, bs)
  }

  lemma {:induction false} ApplyAllAppend<T>(op: Op<T>, xs: seq<T>, ys: seq<T>, bs: seq<seq<T>>)
    ensures ApplyAll(op, xs + ys, bs) == ApplyAll(op, xs, bs) + ApplyAll(op, ys, bs)
    decreases |ys|
  {
    hide Apply;
    if ys == [] {
      assert xs + ys == xs;
    } else {
      var n := |ys| - 1;
      assert (xs + ys)[..|xs + ys| - 1] == xs + ys[..n];
      ApplyAllAppend(op, xs, ys[..n], bs);
    }
  }

  lemma {:induction false} EvalAppend<T>(ops: seq<Op<T>>, xs: seq<T>, ys: seq<T>, bs: seq<seq<T>>)
    ensures Eval(ops, xs + ys, bs) == Eval(ops, xs, bs) + Eval(ops, ys, bs)
    decreases |ops|
  {
    if ops != [] {
      var front := ops[..|ops| - 1];
      EvalAppend(front, xs, ys, bs);
      ApplyAllAppend(ops[|ops| - 1], Eval(front, xs, bs), Eval(front, ys, bs), bs);
    }
  }

  lemma {:induction false} EvalNone<T>(ops: seq<Op<T>>, bs: seq<seq<T>>)
    ensures Eval(ops, [], bs) == []
    decreases |ops|
  {
    if ops != [] {
      EvalNone(ops[..|ops| - 1], bs);
    }
  }

  lemma {:induction false} EvalEach<T>(ops: seq<Op<T>>, xs: seq<T>, bs: seq<seq<T>>)
    ensures multiset(PathOf(ops)(xs, bs)) == Each(PathOf(ops), xs, bs)
    decreases |xs|
  {
    if xs == [] {
      EvalNone(ops, bs);
    } else {
      var n := |xs| - 1;
      EvalEach(ops, xs[..n], bs);
      assert xs == xs[..n] + [xs[n]];
      EvalAppend(ops, xs[..n], [xs[n]], bs);
    }
  }

  /** Every join path is linear in the probe, so shaping preserves its meaning. */
  lemma JoinPathsAreLinear<T(!new)>(ops: seq<Op<T>>)
    ensures Linear(PathOf(ops))
  {
    forall xs, bs ensures multiset(PathOf(ops)(xs, bs)) == Each(PathOf(ops), xs, bs) {
      EvalEach(ops, xs, bs);
    }
  }

  // Which tuples a path returns.

  /** What one operator can make of a tuple. */
  ghost predicate Yields<T(!new)>(op: Op<T>, x: T, y: T, bs: seq<seq<T>>) {
    match op
    case Select(keep) => keep(x) && y == x
    case Project(f) => y == f(x)
    case Join(k, prepare, on, combine) =>
      k < |bs| && exists b :: b in prepare(bs[k]) && on(x, b) && y == combine(x, b)
  }

  /** The tuple goes through the operators, one after the other. */
  ghost predicate Passes<T(!new)>(ops: seq<Op<T>>, trace: seq<T>, bs: seq<seq<T>>) {
    && |trace| == |ops| + 1
    && forall i :: 0 <= i < |ops| ==> Yields(ops[i], trace[i], trace[i + 1], bs)
  }

  lemma {:induction false} MatchesIff<T(!new)>(x: T, table: seq<T>, on: (T, T) -> bool, combine: (T, T) -> T, y: T)
    ensures y in Matches(x, table, on, combine) <==> exists b :: b in table && on(x, b) && y == combine(x, b)
    decreases |table|
  {
    if table != [] {
      var n := |table| - 1;
      MatchesIff(x, table[..n], on, combine, y);
      assert table == table[..n] + [table[n]];
    }
  }

  lemma ApplyIff<T(!new)>(op: Op<T>, x: T, bs: seq<seq<T>>, y: T)
    ensures y in Apply(op, x, bs) <==> Yields(op, x, y, bs)
  {
    if op.Join? && op.table < |bs| {
      MatchesIff(x, op.prepare(bs[op.table]), op.matches, op.combine, y);
    }
  }

  lemma {:induction false} ApplyAllIff<T(!new)>(op: Op<T>, xs: seq<T>, bs: seq<seq<T>>, y: T)
    ensures y in ApplyAll(op, xs, bs) <==> exists x :: x in xs && Yields(op, x, y, bs)
    decreases |xs|
  {
    hide Yields, Apply;
    if xs != [] {
      var n := |xs| - 1;
      ApplyAllIff(op, xs[..n], bs, y);
      ApplyIff(op, xs[n], bs, y);
      assert xs == xs[..n] + [xs[n]];
    }
  }

  /** Some probe tuple becomes `y` on its way through the operators. */
  ghost predicate Becomes<T(!new)>(ops: seq<Op<T>>, xs: seq<T>, bs: seq<seq<T>>, y: T) {
    exists trace :: Passes(ops, trace, bs) && trace[0] in xs && trace[|ops|] == y
  }

  lemma PassesOn<T(!new)>(ops: seq<Op<T>>, op: Op<T>, xs: seq<T>, bs: seq<seq<T>>, x: T, y: T)
    requires Becomes(ops, xs, bs, x) && Yields(op, x, y, bs)
    ensures Becomes(ops + [op], xs, bs, y)
  {
    hide Yields;
    var trace :| Passes(ops, trace, bs) && trace[0] in xs && trace[|ops|] == x;
    var longer := trace + [y];
    assert Passes(ops + [op], longer, bs);
    assert longer[0] == trace[0];
  }

  lemma PassedBefore<T(!new)>(ops: seq<Op<T>>, op: Op<T>, xs: seq<T>, bs: seq<seq<T>>, y: T) returns (x: T)
    requires Becomes(ops + [op], xs, bs, y)
    ensures Becomes(ops, xs, bs, x) && Yields(op, x, y, bs)
  {
    hide Yields;
    var trace :| Passes(ops + [op], trace, bs) && trace[0] in xs && trace[|ops| + 1] == y;
    x := trace[|ops|];
    var shorter := trace[..|ops| + 1];
    assert (ops + [op])[|ops|] == op;
    assert forall i :: 0 <= i < |ops| ==> (ops + [op])[i] == ops[i];
    assert Passes(ops, shorter, bs);
    assert shorter[0] == trace[0];
  }

  /** A path returns exactly the tuples that a probe tuple becomes on its way through the operators. */
  lemma {:induction false} ReturnedIff<T(!new)>(ops: seq<Op<T>>, xs: seq<T>, bs: seq<seq<T>>, y: T)
    ensures y in Eval(ops, xs, bs) <==> Becomes(ops, xs, bs, y)
    decreases |ops|
  {
    if ops == [] {
      assert Passes(ops, [y], bs) && [y][0] == y;
    } else {
      hide Yields, Becomes, ApplyAll;
      var n := |ops| - 1;
      var front, mid := ops[..n], Eval(ops[..n], xs, bs);
      assert ops == front + [ops[n]];
      ApplyAllIff(ops[n], mid, bs, y);
      if x :| x in mid && Yields(ops[n], x, y, bs) {
        ReturnedIff(front, xs, bs, x);
        PassesOn(front, ops[n], xs, bs, x, y);
      }
      if Becomes(ops, xs, bs, y) {
        var x := PassedBefore(front, ops[n], xs, bs, y);
        ReturnedIff(front, xs, bs, x);
      }
    }
  }

  /** And it returns them as often: a selection keeps all copies of a tuple or none. */
  lemma {:induction false} SelectCounts<T(!new)>(keep: T -> bool, xs: seq<T>, bs: seq<seq<T>>, y: T)
    ensures multiset(ApplyAll(Select(keep), xs, bs))[y] == if keep(y) then multiset(xs)[y] else 0
    decreases |xs|
  {
    if xs != [] {
      var n := |xs| - 1;
      SelectCounts(keep, xs[..n], bs, y);
      assert xs == xs[..n] + [xs[n]];
    }
  }

  /** A join returns one tuple for each matching tuple of the build table. */
  lemma {:induction false} JoinCounts<T(!new)>(x: T, table: seq<T>, on: (T, T) -> bool, combine: (T, T) -> T)
    ensures |Matches(x, table, on, combine)| == |set i | 0 <= i < |table| && on(x, table[i])|
    decreases |table|
  {
    if table != [] {
      var n := |table| - 1;
      JoinCounts(x, table[..n], on, combine);
      var before := set i | 0 <= i < n && on(x, table[..n][i]);
      var all := set i | 0 <= i < |table| && on(x, table[i]);
      assert all == before + (if on(x, table[n]) then {n} else {});
    }
  }
}
