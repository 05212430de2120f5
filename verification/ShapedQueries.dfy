/** Whole queries: a path that ends in an aggregation on every worker, and the same aggregation once more
    over the collected partial results.  This two-phase plan returns what one aggregation over the plain
    path returns, with one result for everything (`reduce`) or one for each key (`groupby`). */
module ShapedQueries {
  import opened Aggregates
  import JoinPaths
  import opened QueryShaping
  import opened ScaleOutShaping
  import opened Sequences
  import opened Streams

  datatype Agg<!T> = Agg(m: Monoid, w: Width, expr: T -> int)

  /** With `only` everything is one group, also when there is nothing; otherwise there is a group for
      every key that occurs. */
  datatype Grouping<!T, !K> = Grouping(only: Option<K>, key: T -> K, aggs: seq<Agg<T>>)

  /** What a group's results become as a tuple. */
  type Emit<!K, T> = (K, seq<int>) -> T

  predicate Belongs<T, K(==)>(g: Grouping<T, K>, k: K, x: T) {
    if g.only.Some? then k == g.only.value else g.key(x) == k
  }

  function Having<T, K(==)>(g: Grouping<T, K>, k: K, xs: seq<T>): seq<T> {
    if xs == [] then []
    else
      var n := |xs| - 1;
      Having(g, k, xs[..n]) + (if Belongs(g, k, xs[n]) then [xs[n]] else [])
  }

  /** The keys in the order of their first occurrence. */
  function Keys<T, K(==)>(key: T -> K, xs: seq<T>): (ks: seq<K>)
    ensures Distinct(ks)
  {
    if xs == [] then []
    else
      var ks := Keys(key, xs[..|xs| - 1]);
      if key(xs[|xs| - 1]) in ks then ks else ks + [key(xs[|xs| - 1])]
  }

  function Groups<T, K(==)>(g: Grouping<T, K>, xs: seq<T>): (ks: seq<K>)
    ensures Distinct(ks)
  {
    if g.only.Some? then [g.only.value] else Keys(g.key, xs)
  }

  /** The values of an aggregate's expression, in its column type. */
  function Column<T>(a: Agg<T>, xs: seq<T>): (r: seq<int>)
    ensures |r| == |xs| && AllFit(a.w, r)
  {
    seq(|xs|, i requires 0 <= i < |xs| => Wrap(a.w, a.expr(xs[i])))
  }

  function FoldOf<T, K(==)>(g: Grouping<T, K>, j: nat, k: K, xs: seq<T>): (r: int)
    requires j < |g.aggs|
    ensures Fits(g.aggs[j].w, r)
  {
    Fold(g.aggs[j].m, g.aggs[j].w, Column(g.aggs[j], Having(g, k, xs)))
  }

  function Folds<T, K(==)>(g: Grouping<T, K>, k: K, xs: seq<T>): (r: seq<int>)
    ensures |r| == |g.aggs| && forall j :: 0 <= j < |r| ==> r[j] == FoldOf(g, j, k, xs)
  {
    seq(|g.aggs|, j requires 0 <= j < |g.aggs| => FoldOf(g, j, k, xs))
  }

  function Rows<T, K(==)>(g: Grouping<T, K>, emit: Emit<K, T>, xs: seq<T>, ks: seq<K>): (r: seq<T>)
    ensures |r| == |ks| && forall i :: 0 <= i < |ks| ==> r[i] == emit(ks[i], Folds(g, ks[i], xs))
  {
    seq(|ks|, i requires 0 <= i < |ks| => emit(ks[i], Folds(g, ks[i], xs)))
  }

  /** `reduce` and `groupby`. */
  function Aggregate<T, K(==)>(g: Grouping<T, K>, emit: Emit<K, T>, xs: seq<T>): seq<T> {
    Rows(g, emit, xs, Groups(g, xs))
  }

  /** The second aggregation reads what the first one emits: the same key, the same aggregates, and their
      values as they are. */
  ghost predicate Rereads<T, K(!new)>(first: Grouping<T, K>, emit: Emit<K, T>, second: Grouping<T, K>) {
    && first.only == second.only && |first.aggs| == |second.aggs|
    && (forall j :: 0 <= j < |first.aggs| ==>
          first.aggs[j].m == second.aggs[j].m && first.aggs[j].w == second.aggs[j].w)
    && (forall k, vs :: |vs| == |first.aggs| ==> ReadBack(second, k, vs, emit(k, vs)))
  }

  ghost predicate ReadBack<T, K>(second: Grouping<T, K>, k: K, vs: seq<int>, row: T)
    requires |vs| == |second.aggs|
  {
    second.key(row) == k && forall j :: 0 <= j < |vs| ==> second.aggs[j].expr(row) == vs[j]
  }

  /** The usual second phase, where tuples are a key and its results: it takes the key and adds up, or
      compares, the results in place. */
  function Again<K>(first: Grouping<(K, seq<int>), K>): Grouping<(K, seq<int>), K> {
    Grouping(first.only, (row: (K, seq<int>)) => row.0,
             seq(|first.aggs|, j requires 0 <= j < |first.aggs| =>
                   Agg(first.aggs[j].m, first.aggs[j].w, (row: (K, seq<int>)) => if j < |row.1| then row.1[j] else 0)))
  }

  lemma AgainRereads<K(!new)>(first: Grouping<(K, seq<int>), K>)
    ensures Rereads(first, (k, vs) => (k, vs), Again(first))
  {
  }

  // Sharing out.

  lemma {:induction false} HavingConcat<T, K>(g: Grouping<T, K>, k: K, xs: seq<T>, ys: seq<T>)
    ensures Having(g, k, xs + ys) == Having(g, k, xs) + Having(g, k, ys)
    decreases |ys|
  {
    if ys == [] {
      assert xs + ys == xs;
    } else {
      var n := |ys| - 1;
      assert (xs + ys)[..|xs + ys| - 1] == xs + ys[..n];
      HavingConcat(g, k, xs, ys[..n]);
    }
  }

  lemma FoldOfConcat<T, K>(g: Grouping<T, K>, j: nat, k: K, xs: seq<T>, ys: seq<T>)
    requires j < |g.aggs|
    ensures FoldOf(g, j, k, xs + ys)
         == Op(g.aggs[j].m, g.aggs[j].w, FoldOf(g, j, k, xs), FoldOf(g, j, k, ys))
  {
    var a := g.aggs[j];
    HavingConcat(g, k, xs, ys);
    var l, r := Having(g, k, xs), Having(g, k, ys);
    assert Column(a, l + r) == Column(a, l) + Column(a, r);
    FoldAppend(a.m, a.w, Column(a, l), Column(a, r));
  }

  lemma {:induction false} KeysAre<T, K>(key: T -> K, xs: seq<T>, k: K)
    ensures k in Keys(key, xs) <==> exists i :: 0 <= i < |xs| && key(xs[i]) == k
    decreases |xs|
  {
    if xs != [] {
      KeysAre(key, xs[..|xs| - 1], k);
    }
  }

  lemma KeysConcat<T, K>(key: T -> K, xs: seq<T>, ys: seq<T>, k: K)
    ensures k in Keys(key, xs + ys) <==> k in Keys(key, xs) || k in Keys(key, ys)
  {
    KeysAre(key, xs, k);
    KeysAre(key, ys, k);
    KeysAre(key, xs + ys, k);
    var zs := xs + ys;
    if k in Keys(key, ys) {
      var i :| 0 <= i < |ys| && key(ys[i]) == k;
      assert zs[|xs| + i] == ys[i];
    }
    if k in Keys(key, xs) {
      var i :| 0 <= i < |xs| && key(xs[i]) == k;
      assert zs[i] == xs[i];
    }
  }

  lemma KeysPermute<T, K>(key: T -> K, xs: seq<T>, ys: seq<T>, k: K)
    requires multiset(xs) == multiset(ys) && k in Keys(key, xs)
    ensures k in Keys(key, ys)
  {
    KeysAre(key, xs, k);
    KeysAre(key, ys, k);
    var i :| 0 <= i < |xs| && key(xs[i]) == k;
    assert xs[i] in multiset(ys);
    var j :| 0 <= j < |ys| && ys[j] == xs[i];
  }

  // What an aggregation returns.

  /** Without keys everything is one group, also nothing at all. */
  lemma {:induction false} ReduceHasAll<T, K>(g: Grouping<T, K>, xs: seq<T>)
    requires g.only.Some?
    ensures Having(g, g.only.value, xs) == xs
    decreases |xs|
  {
    if xs != [] {
      ReduceHasAll(g, xs[..|xs| - 1]);
    }
  }

  /** `reduce` returns one row, with every aggregate over all tuples. */
  lemma ReduceIs<T, K>(g: Grouping<T, K>, emit: Emit<K, T>, xs: seq<T>) returns (vs: seq<int>)
    requires g.only.Some?
    ensures Aggregate(g, emit, xs) == [emit(g.only.value, vs)] && |vs| == |g.aggs|
    ensures forall j :: 0 <= j < |vs| ==> vs[j] == Fold(g.aggs[j].m, g.aggs[j].w, Column(g.aggs[j], xs))
  {
    ReduceHasAll(g, xs);
    vs := Folds(g, g.only.value, xs);
  }

  /** A group has all copies of exactly the tuples with its key. */
  lemma {:induction false} GroupHas<T, K>(g: Grouping<T, K>, k: K, xs: seq<T>, x: T)
    requires g.only.None?
    ensures multiset(Having(g, k, xs))[x] == if g.key(x) == k then multiset(xs)[x] else 0
    decreases |xs|
  {
    if xs != [] {
      var n := |xs| - 1;
      GroupHas(g, k, xs[..n], x);
      assert xs == xs[..n] + [xs[n]];
    }
  }

  /** `groupby` returns one row for each key that occurs, with every aggregate over the key's group. */
  lemma GroupByIs<T, K>(g: Grouping<T, K>, emit: Emit<K, T>, xs: seq<T>) returns (ks: seq<K>)
    requires g.only.None?
    ensures Distinct(ks) && |Aggregate(g, emit, xs)| == |ks|
    ensures forall k :: k in ks <==> exists i :: 0 <= i < |xs| && g.key(xs[i]) == k
    ensures forall i :: 0 <= i < |ks| ==> Aggregate(g, emit, xs)[i] == emit(ks[i], Folds(g, ks[i], xs))
  {
    ks := Keys(g.key, xs);
    forall k ensures k in ks <==> exists i :: 0 <= i < |xs| && g.key(xs[i]) == k {
      KeysAre(g.key, xs, k);
    }
  }

  /** A key whose group is meant. */
  predicate Asked<T, K(==)>(g: Grouping<T, K>, k: K) {
    g.only.Some? ==> k == g.only.value
  }

  /** Of the rows of a first phase, the second finds exactly the one of its key. */
  lemma {:induction false} RowsHaving<T, K(!new)>(first: Grouping<T, K>, emit: Emit<K, T>, second: Grouping<T, K>,
                                                  p: seq<T>, ks: seq<K>, k: K)
    requires Rereads(first, emit, second) && Distinct(ks) && Asked(first, k)
    requires forall i :: 0 <= i < |ks| ==> Asked(first, ks[i])
    ensures Having(second, k, Rows(first, emit, p, ks)) == if k in ks then [emit(k, Folds(first, k, p))] else []
    decreases |ks|
  {
    hide Folds;
    if ks != [] {
      var n := |ks| - 1;
      RowsHaving(first, emit, second, p, ks[..n], k);
      assert Rows(first, emit, p, ks)[..n] == Rows(first, emit, p, ks[..n]);
      assert ReadBack(second, ks[n], Folds(first, ks[n], p), emit(ks[n], Folds(first, ks[n], p)));
      assert ks == ks[..n] + [ks[n]];
    }
  }

  lemma {:induction false} HavingNone<T, K>(g: Grouping<T, K>, k: K, xs: seq<T>)
    requires Asked(g, k) && k !in Groups(g, xs)
    ensures Having(g, k, xs) == []
    decreases |xs|
  {
    if xs != [] {
      HavingNone(g, k, xs[..|xs| - 1]);
    }
  }

  /** Aggregating one share twice is aggregating it once. */
  lemma PartFold<T, K(!new)>(first: Grouping<T, K>, emit: Emit<K, T>, second: Grouping<T, K>, j: nat, k: K, p: seq<T>)
    requires Rereads(first, emit, second) && j < |first.aggs| && Asked(first, k)
    ensures FoldOf(second, j, k, Aggregate(first, emit, p)) == FoldOf(first, j, k, p)
  {
    hide Having, Fold, Keys, Wrap;
    var ks := Groups(first, p);
    RowsHaving(first, emit, second, p, ks, k);
    var b := second.aggs[j];
    if k in ks {
      var vs := Folds(first, k, p);
      assert ReadBack(second, k, vs, emit(k, vs));
      WrapOfFit(b.w, vs[j]);
      assert Column(b, [emit(k, vs)]) == [vs[j]];
      FoldOne(b.m, b.w, vs[j]);
    } else {
      HavingNone(first, k, p);
      assert Column(b, []) == [] == Column(first.aggs[j], []);
    }
  }

  /** The first phase on every share. */
  function AggregateEach<T, K(==)>(g: Grouping<T, K>, emit: Emit<K, T>, parts: Stream<T>): (r: Stream<T>)
    ensures |r| == |parts|
  {
    seq(|parts|, w requires 0 <= w < |parts| => Aggregate(g, emit, parts[w]))
  }

  lemma AggregateEachLast<T, K>(g: Grouping<T, K>, emit: Emit<K, T>, parts: Stream<T>)
    requires parts != []
    ensures var n := |parts| - 1;
            Flatten(AggregateEach(g, emit, parts))
            == Flatten(AggregateEach(g, emit, parts[..n])) + Aggregate(g, emit, parts[n])
  {
    hide Aggregate;
    var n := |parts| - 1;
    assert AggregateEach(g, emit, parts)[..n] == AggregateEach(g, emit, parts[..n]);
  }

  lemma {:induction false} PartsFold<T, K(!new)>(first: Grouping<T, K>, emit: Emit<K, T>, second: Grouping<T, K>,
                                                 j: nat, k: K, parts: Stream<T>)
    requires Rereads(first, emit, second) && j < |first.aggs| && Asked(first, k)
    ensures FoldOf(second, j, k, Flatten(AggregateEach(first, emit, parts))) == FoldOf(first, j, k, Flatten(parts))
    decreases |parts|
  {
    if parts == [] {
      NothingFolded(first, second, j, k);
      assert AggregateEach(first, emit, parts) == [];
    } else {
      hide FoldOf, Aggregate, AggregateEach;
      var n := |parts| - 1;
      PartsFold(first, emit, second, j, k, parts[..n]);
      PartFold(first, emit, second, j, k, parts[n]);
      AggregateEachLast(first, emit, parts);
      FoldOfConcat(first, j, k, Flatten(parts[..n]), parts[n]);
      FoldOfConcat(second, j, k, Flatten(AggregateEach(first, emit, parts[..n])), Aggregate(first, emit, parts[n]));
    }
  }

  lemma NothingFolded<T, K>(first: Grouping<T, K>, second: Grouping<T, K>, j: nat, k: K)
    requires j < |first.aggs| && j < |second.aggs|
    requires first.aggs[j].m == second.aggs[j].m && first.aggs[j].w == second.aggs[j].w
    ensures FoldOf(second, j, k, []) == FoldOf(first, j, k, [])
  {
    assert Column(first.aggs[j], []) == [] == Column(second.aggs[j], []);
  }

  lemma KeysOfPart<T, K(!new)>(first: Grouping<T, K>, emit: Emit<K, T>, second: Grouping<T, K>, p: seq<T>, k: K)
    requires Rereads(first, emit, second) && first.only.None?
    ensures k in Keys(second.key, Aggregate(first, emit, p)) <==> k in Keys(first.key, p)
  {
    hide Keys, Folds;
    var rows, ks := Aggregate(first, emit, p), Keys(first.key, p);
    KeysAre(second.key, rows, k);
    forall i | 0 <= i < |ks| ensures second.key(rows[i]) == ks[i] {
      assert ReadBack(second, ks[i], Folds(first, ks[i], p), rows[i]);
    }
    if k in ks {
      var i :| 0 <= i < |ks| && ks[i] == k;
      assert second.key(rows[i]) == k;
    }
  }

  lemma {:induction false} KeysOfParts<T, K(!new)>(first: Grouping<T, K>, emit: Emit<K, T>, second: Grouping<T, K>,
                                                   parts: Stream<T>, k: K)
    requires Rereads(first, emit, second) && first.only.None?
    ensures k in Keys(second.key, Flatten(AggregateEach(first, emit, parts))) <==> k in Keys(first.key, Flatten(parts))
    decreases |parts|
  {
    hide Aggregate;
    if parts != [] {
      hide AggregateEach, Keys;
      var n := |parts| - 1;
      KeysOfParts(first, emit, second, parts[..n], k);
      KeysOfPart(first, emit, second, parts[n], k);
      AggregateEachLast(first, emit, parts);
      KeysConcat(first.key, Flatten(parts[..n]), parts[n], k);
      KeysConcat(second.key, Flatten(AggregateEach(first, emit, parts[..n])), Aggregate(first, emit, parts[n]), k);
    }
  }

  /** The groups of the second phase are those of the whole. */
  lemma GroupsOfParts<T, K(!new)>(first: Grouping<T, K>, emit: Emit<K, T>, second: Grouping<T, K>,
                                  parts: Stream<T>, whole: seq<T>)
    requires Rereads(first, emit, second) && multiset(Flatten(parts)) == multiset(whole)
    ensures multiset(Groups(second, Flatten(AggregateEach(first, emit, parts)))) == multiset(Groups(first, whole))
  {
    hide AggregateEach, Keys, Flatten;
    var rows := Flatten(AggregateEach(first, emit, parts));
    if first.only.None? {
      forall k ensures k in Keys(second.key, rows) <==> k in Keys(first.key, whole) {
        KeysOfParts(first, emit, second, parts, k);
        if k in Keys(first.key, Flatten(parts)) {
          KeysPermute(first.key, Flatten(parts), whole, k);
        }
        if k in Keys(first.key, whole) {
          KeysPermute(first.key, whole, Flatten(parts), k);
        }
      }
      SameMembers(Groups(second, rows), Groups(first, whole));
    }
  }

  function Picked<T, K(==)>(g: Grouping<T, K>, j: nat, k: K, xs: seq<T>): seq<int>
    requires j < |g.aggs|
  {
    Column(g.aggs[j], Having(g, k, xs))
  }

  lemma PickedConcat<T, K>(g: Grouping<T, K>, j: nat, k: K, xs: seq<T>, ys: seq<T>)
    requires j < |g.aggs|
    ensures Picked(g, j, k, xs + ys) == Picked(g, j, k, xs) + Picked(g, j, k, ys)
  {
    hide Wrap;
    HavingConcat(g, k, xs, ys);
  }

  lemma PickedRemove<T, K>(g: Grouping<T, K>, j: nat, k: K, xs: seq<T>, i: nat)
    requires j < |g.aggs| && i < |xs|
    ensures multiset(Picked(g, j, k, xs))
         == multiset(Picked(g, j, k, xs[..i] + xs[i + 1..])) + multiset(Picked(g, j, k, [xs[i]]))
  {
    hide Picked;
    var a, b := xs[..i], xs[i + 1..];
    assert xs == a + ([xs[i]] + b);
    PickedConcat(g, j, k, [xs[i]], b);
    PickedConcat(g, j, k, a, [xs[i]] + b);
    PickedConcat(g, j, k, a, b);
  }

  lemma {:induction false} PickedPermutes<T, K>(g: Grouping<T, K>, j: nat, k: K, xs: seq<T>, ys: seq<T>)
    requires j < |g.aggs| && multiset(xs) == multiset(ys)
    ensures multiset(Picked(g, j, k, xs)) == multiset(Picked(g, j, k, ys))
    decreases |xs|
  {
    hide Picked;
    if xs == [] {
      assert |multiset(ys)| == 0;
    } else {
      var n := |xs| - 1;
      var i := SameElement(xs, ys);
      PickedPermutes(g, j, k, xs[..n], ys[..i] + ys[i + 1..]);
      PickedRemove(g, j, k, ys, i);
      PickedRemove(g, j, k, xs, n);
      assert xs[..n] + xs[n + 1..] == xs[..n];
    }
  }

  lemma FoldOfPermutes<T, K>(g: Grouping<T, K>, j: nat, k: K, xs: seq<T>, ys: seq<T>)
    requires j < |g.aggs| && multiset(xs) == multiset(ys)
    ensures FoldOf(g, j, k, xs) == FoldOf(g, j, k, ys)
  {
    hide Having, Column, Fold;
    PickedPermutes(g, j, k, xs, ys);
    FoldPermutes(g.aggs[j].m, g.aggs[j].w, Picked(g, j, k, xs), Picked(g, j, k, ys));
  }

  lemma RowsRemove<T, K>(g: Grouping<T, K>, emit: Emit<K, T>, xs: seq<T>, ks: seq<K>, i: nat)
    requires i < |ks|
    ensures multiset(Rows(g, emit, xs, ks))
         == multiset(Rows(g, emit, xs, ks[..i] + ks[i + 1..])) + multiset{emit(ks[i], Folds(g, ks[i], xs))}
  {
    hide Folds;
    var rows := Rows(g, emit, xs, ks);
    assert rows[..i] + rows[i + 1..] == Rows(g, emit, xs, ks[..i] + ks[i + 1..]);
    RemoveAt(rows, i);
    assert rows[i] in multiset(rows);
  }

  lemma {:induction false} RowsPermute<T, K>(g: Grouping<T, K>, xs: seq<T>, ks: seq<K>, h: Grouping<T, K>,
                                             ys: seq<T>, ls: seq<K>, emit: Emit<K, T>)
    requires multiset(ks) == multiset(ls) && forall i :: 0 <= i < |ks| ==> Folds(g, ks[i], xs) == Folds(h, ks[i], ys)
    ensures multiset(Rows(g, emit, xs, ks)) == multiset(Rows(h, emit, ys, ls))
    decreases |ks|
  {
    hide Folds;
    if ks == [] {
      assert |multiset(ls)| == 0;
    } else {
      hide Rows;
      var n := |ks| - 1;
      var i := SameElement(ks, ls);
      RowsPermute(g, xs, ks[..n], h, ys, ls[..i] + ls[i + 1..], emit);
      RowsRemove(g, emit, xs, ks, n);
      assert ks[..n] + ks[n + 1..] == ks[..n];
      RowsRemove(h, emit, ys, ls, i);
    }
  }

  /** Two phases over any sharing out give the result of one. */
  lemma TwoPhases<T, K(!new)>(first: Grouping<T, K>, emit: Emit<K, T>, second: Grouping<T, K>, final: Emit<K, T>,
                              parts: Stream<T>, whole: seq<T>)
    requires Rereads(first, emit, second) && multiset(Flatten(parts)) == multiset(whole)
    ensures multiset(Aggregate(second, final, Flatten(AggregateEach(first, emit, parts))))
         == multiset(Aggregate(first, final, whole))
  {
    hide FoldOf, AggregateEach, Keys, Flatten;
    var rows := Flatten(AggregateEach(first, emit, parts));
    var ks := Groups(second, rows);
    GroupsOfParts(first, emit, second, parts, whole);
    forall i | 0 <= i < |ks| ensures Folds(second, ks[i], rows) == Folds(first, ks[i], whole) {
      forall j | 0 <= j < |first.aggs| ensures FoldOf(second, j, ks[i], rows) == FoldOf(first, j, ks[i], whole) {
        PartsFold(first, emit, second, j, ks[i], parts);
        FoldOfPermutes(first, j, ks[i], Flatten(parts), whole);
      }
    }
    RowsPermute(second, rows, ks, first, whole, Groups(first, whole), final);
  }

  // Queries.

  /** The path of a worker: a plain path whose output is aggregated. */
  function Aggregating<T, K(==)>(path: Path<T>, g: Grouping<T, K>, emit: Emit<K, T>): Path<T> {
    (xs, bs) => Aggregate(g, emit, path(xs, bs))
  }

  lemma AggregatesEach<T, K>(path: Path<T>, g: Grouping<T, K>, emit: Emit<K, T>, shares: Stream<T>, bs: seq<seq<T>>)
    ensures RunEach(Aggregating(path, g, emit), shares, bs) == AggregateEach(g, emit, RunEach(path, shares, bs))
  {
  }

  /** However a query's probe is shared out: aggregating on every worker and once more over what they
      return is aggregating the output of the plain path. */
  lemma AggregatedShares<T(!new), K(!new)>(
      path: Path<T>, first: Grouping<T, K>, emit: Emit<K, T>, second: Grouping<T, K>, final: Emit<K, T>,
      whole: seq<T>, bs: seq<seq<T>>, shares: Stream<T>, out: seq<T>)
    requires Linear(path) && Rereads(first, emit, second)
    requires Shared(Aggregating(path, first, emit), whole, bs, shares, out)
    ensures multiset(Aggregate(second, final, out)) == multiset(Aggregate(first, final, path(whole, bs)))
  {
    hide Flatten, RunEach, Aggregate, AggregateEach, Linear, Rereads;
    var parts := RunEach(path, shares, bs);
    AggregatesEach(path, first, emit, shares, bs);
    LinearShares(path, whole, bs, shares, Flatten(parts));
    TwoPhases(first, emit, second, final, parts, path(whole, bs));
  }

  /** The queries of the repository: selections, projections and joins, and then an aggregation. */
  lemma JoinPathAggregated<T(!new), K(!new)>(
      ops: seq<JoinPaths.Op<T>>, first: Grouping<T, K>, emit: Emit<K, T>, second: Grouping<T, K>, final: Emit<K, T>,
      whole: seq<T>, bs: seq<seq<T>>, shares: Stream<T>, out: seq<T>)
    requires Rereads(first, emit, second)
    requires Shared(Aggregating(JoinPaths.PathOf(ops), first, emit), whole, bs, shares, out)
    ensures multiset(Aggregate(second, final, out))
         == multiset(Aggregate(first, final, JoinPaths.PathOf(ops)(whole, bs)))
  {
    JoinPaths.JoinPathsAreLinear(ops);
    AggregatedShares(JoinPaths.PathOf(ops), first, emit, second, final, whole, bs, shares, out);
  }

  /** A query on one server. */
  method QueryOnServer<T(!new), K(==, !new)>(
      sh: Shaper, probe: Stream<T>, builds: seq<Stream<T>>, path: Path<T>, first: Grouping<T, K>, emit: Emit<K, T>,
      second: Grouping<T, K>, final: Emit<K, T>, packed: bool, choice: nat -> nat, last: nat -> nat)
    returns (r: seq<T>)
    requires sh.dop > 0 && Linear(path) && Rereads(first, emit, second)
    ensures multiset(r) == multiset(Aggregate(first, final, path(Flatten(probe), Whole(builds))))
  {
    var out, shares := Parallel(sh, probe, builds, Aggregating(path, first, emit), packed, choice, last);
    r := Aggregate(second, final, out.parts[0]);
    AggregatedShares(path, first, emit, second, final, Flatten(probe), Whole(builds), shares.parts, out.parts[0]);
  }

  /** A query on CPUs and GPUs. */
  method QueryOnBoth<T(!new), K(==, !new)>(
      cpu: Shaper, gpu: Shaper, probe: Stream<T>, builds: seq<Stream<T>>, path: Path<T>, first: Grouping<T, K>,
      emit: Emit<K, T>, second: Grouping<T, K>, final: Emit<K, T>, packed: bool, split: nat -> nat,
      choiceG: nat -> nat, choiceC: nat -> nat, last: nat -> nat)
    returns (r: seq<T>)
    requires cpu.dop > 0 && gpu.dop > 0 && Linear(path) && Rereads(first, emit, second)
    ensures multiset(r) == multiset(Aggregate(first, final, path(Flatten(probe), Whole(builds))))
  {
    var out, shares := HybridParallel(cpu, gpu, probe, builds, Aggregating(path, first, emit), packed, split,
                                      choiceG, choiceC, last);
    r := Aggregate(second, final, out.parts[0]);
    AggregatedShares(path, first, emit, second, final, Flatten(probe), Whole(builds), shares, out.parts[0]);
  }

  /** A query on a cluster: the result at server 0. */
  lemma QueryOnCluster<T(!new), K(!new)>(
      dops: seq<nat>, device: Device, probe: Cluster<T>, builds: seq<Cluster<T>>, path: Path<T>,
      first: Grouping<T, K>, emit: Emit<K, T>, second: Grouping<T, K>, final: Emit<K, T>, packed: bool,
      dest: nat -> nat, choice: nat -> nat -> nat)
    requires Sized(dops, probe, builds) && Linear(path) && Rereads(first, emit, second)
    ensures var r := ParallelScaleOut(dops, device, probe, builds, Aggregating(path, first, emit), packed, dest, choice);
            && |r.parts| == |dops|
            && multiset(Aggregate(second, final, r.parts[0]))
               == multiset(Aggregate(first, final, path(Flatten(Shares(probe)), AllShares(builds))))
  {
    hide Aggregate, ParallelScaleOut, WorkerShares, Flatten, RunEach;
    var p := Aggregating(path, first, emit);
    ScaleOutShares(dops, device, probe, builds, p, packed, dest, choice);
    var r := ParallelScaleOut(dops, device, probe, builds, p, packed, dest, choice);
    AggregatedShares(path, first, emit, second, final, Flatten(Shares(probe)), AllShares(builds),
                     WorkerShares(dops, device, probe, dest, choice, |dops|), r.parts[0]);
  }

  /** Without aggregation the cluster returns the multiset of the plain path. */
  lemma PlainOnCluster<T(!new)>(
      dops: seq<nat>, device: Device, probe: Cluster<T>, builds: seq<Cluster<T>>, path: Path<T>, packed: bool,
      dest: nat -> nat, choice: nat -> nat -> nat)
    requires Sized(dops, probe, builds) && Linear(path)
    ensures var r := ParallelScaleOut(dops, device, probe, builds, path, packed, dest, choice);
            |r.parts| == |dops| && multiset(r.parts[0]) == multiset(path(Flatten(Shares(probe)), AllShares(builds)))
  {
    hide ParallelScaleOut, WorkerShares, Flatten, RunEach, Linear;
    ScaleOutShares(dops, device, probe, builds, path, packed, dest, choice);
    var r := ParallelScaleOut(dops, device, probe, builds, path, packed, dest, choice);
    LinearShares(path, Flatten(Shares(probe)), AllShares(builds),
                 WorkerShares(dops, device, probe, dest, choice, |dops|), r.parts[0]);
  }
}
