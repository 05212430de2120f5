/** Distributed streams and the routing operators of the plan builder, with the meaning that query
    shaping relies on.  A stream lists, for every running instance of its pipeline, the tuples that
    this instance produces. */
module Streams {
  import opened Sequences

  type Stream<T> = seq<seq<T>>

  /** Targets are taken modulo the number of instances. */
  function Slot(target: nat, dop: nat): (w: nat)
    requires dop > 0
    ensures w < dop
  {
    target % dop
  }

  lemma SlotOfSmall(target: nat, dop: nat)
    requires target < dop
    ensures Slot(target, dop) == target
  {
  }

  /** The tuples of `xs` that `choice` sends to instance `w` of `dop`. */
  function Pick<T>(xs: seq<T>, dop: nat, choice: nat -> nat, w: nat): seq<T>
    requires dop > 0
  {
    if xs == [] then []
    else
      var n := |xs| - 1;
      Pick(xs[..n], dop, choice, w) + (if Slot(choice(n), dop) == w then [xs[n]] else [])
  }

  /** The router under RANDOM or LOCAL: any function from tuples to instances. */
  function Router<T>(s: Stream<T>, dop: nat, choice: nat -> nat): (r: Stream<T>)
    requires dop > 0
    ensures |r| == dop
  {
    seq(dop, w requires 0 <= w < dop => Pick(Flatten(s), dop, choice, w))
  }

  /** One copy of `x` for each of the targets below `n`. */
  function Copies<T>(x: T, n: nat): seq<(nat, T)> {
    if n == 0 then [] else Copies(x, n - 1) + [(n - 1, x)]
  }

  /** The broadcast: one tagged copy per target. */
  function Broadcast<T>(xs: seq<T>, fanout: nat): seq<(nat, T)> {
    if xs == [] then []
    else Broadcast(xs[..|xs| - 1], fanout) + Copies(xs[|xs| - 1], fanout)
  }

  /** The tuples whose tag names target `w` of `dop`; the tag is dropped. */
  function Addressed<T>(xs: seq<(nat, T)>, dop: nat, w: nat): seq<T>
    requires dop > 0
  {
    if xs == [] then []
    else
      var (t, x) := xs[|xs| - 1];
      Addressed(xs[..|xs| - 1], dop, w) + (if Slot(t, dop) == w then [x] else [])
  }

  /** The router on the broadcast target. */
  function RouterByTarget<T>(xs: seq<(nat, T)>, dop: nat): (r: Stream<T>)
    requires dop > 0
    ensures |r| == dop
  {
    seq(dop, w requires 0 <= w < dop => Addressed(xs, dop, w))
  }

  datatype Device = CPU | GPU

  /** A stream with the device whose instances produce it, and whether the tuples were brought into the memory
      where they are worked on. */
  datatype Rel<T> = Rel(parts: Stream<T>, on: Device, local: bool)

  /** Routers run on the CPU and hand out tuples where they are. */
  function Route<T>(r: Rel<T>, dop: nat, choice: nat -> nat): Rel<T>
    requires dop > 0 && r.on == CPU
  {
    Rel(Router(r.parts, dop, choice), CPU, false)
  }

  /** A broadcast and the router on its target: the copies are made in the memory of the targets. */
  function Spread<T>(r: Rel<T>, dop: nat): Rel<T>
    requires dop > 0 && r.on == CPU
  {
    Rel(RouterByTarget(Broadcast(Flatten(r.parts), dop), dop), CPU, true)
  }

  /** Moves between memories and devices carry the tuples unchanged. */
  function MemMove<T>(r: Rel<T>): Rel<T> {
    r.(local := true)
  }

  function ToGpu<T>(r: Rel<T>): Rel<T>
    requires r.on == CPU
  {
    r.(on := GPU)
  }

  function ToCpu<T>(r: Rel<T>): Rel<T>
    requires r.on == GPU
  {
    r.(on := CPU)
  }

  /** A path runs once in every instance, on that instance's probe tuples and build tables. */
  type Path<!T> = (seq<T>, seq<seq<T>>) -> seq<T>

  /** The build tables as instance `w` sees them. */
  function Tables<T>(builds: seq<Stream<T>>, w: nat): seq<seq<T>>
    requires forall j :: 0 <= j < |builds| ==> w < |builds[j]|
  {
    seq(|builds|, j requires 0 <= j < |builds| => builds[j][w])
  }

  function RunPath<T>(path: Path<T>, probe: Stream<T>, builds: seq<Stream<T>>): (r: Stream<T>)
    requires forall j :: 0 <= j < |builds| ==> |builds[j]| == |probe|
    ensures |r| == |probe|
  {
    seq(|probe|, w requires 0 <= w < |probe| => path(probe[w], Tables(builds, w)))
  }

  /** A path runs on one device, with its builds on the same one. */
  function RunOn<T>(path: Path<T>, probe: Rel<T>, builds: seq<Rel<T>>): (r: Rel<T>)
    requires forall j :: 0 <= j < |builds| ==> |builds[j].parts| == |probe.parts| && builds[j].on == probe.on
    ensures |r.parts| == |probe.parts| && r.on == probe.on
  {
    Rel(RunPath(path, probe.parts, PartsOf(builds)), probe.on, true)
  }

  function PartsOf<T>(rels: seq<Rel<T>>): (r: seq<Stream<T>>)
    ensures |r| == |rels| && forall j :: 0 <= j < |rels| ==> r[j] == rels[j].parts
  {
    seq(|rels|, j requires 0 <= j < |rels| => rels[j].parts)
  }

  /** The path run apart on every share, with the same tables. */
  function RunEach<T>(path: Path<T>, shares: Stream<T>, bs: seq<seq<T>>): (r: Stream<T>)
    ensures |r| == |shares|
  {
    seq(|shares|, w requires 0 <= w < |shares| => path(shares[w], bs))
  }

  /** `out` is what the path makes of `whole` when that is shared out in any way and every share is
      worked on apart. */
  ghost predicate Shared<T>(path: Path<T>, whole: seq<T>, bs: seq<seq<T>>, shares: Stream<T>, out: seq<T>) {
    multiset(Flatten(shares)) == multiset(whole) && out == Flatten(RunEach(path, shares, bs))
  }

  /** Instances that all see the same tables. */
  lemma SameTables<T>(path: Path<T>, probe: Stream<T>, builds: seq<Stream<T>>, tables: seq<seq<T>>)
    requires |builds| == |tables|
    requires forall j :: 0 <= j < |builds| ==> |builds[j]| == |probe|
    requires forall j, w :: 0 <= j < |builds| && 0 <= w < |probe| ==> builds[j][w] == tables[j]
    ensures RunPath(path, probe, builds) == RunEach(path, probe, tables)
  {
    forall w | 0 <= w < |probe| ensures RunPath(path, probe, builds)[w] == RunEach(path, probe, tables)[w] {
      assert Tables(builds, w) == tables;
    }
  }

  lemma RunEachConcat<T>(path: Path<T>, a: Stream<T>, b: Stream<T>, bs: seq<seq<T>>)
    ensures RunEach(path, a + b, bs) == RunEach(path, a, bs) + RunEach(path, b, bs)
  {
  }

  lemma NothingShared<T>(path: Path<T>, bs: seq<seq<T>>)
    ensures Shared(path, Flatten<T>([]), bs, [], Flatten<T>([]))
  {
    assert RunEach(path, [], bs) == [];
  }

  /** Two wholes, each shared out, are their concatenation shared out. */
  lemma SharedConcat<T>(path: Path<T>, a: seq<T>, b: seq<T>, bs: seq<seq<T>>, s: Stream<T>, t: Stream<T>,
                        outA: seq<T>, outB: seq<T>)
    requires Shared(path, a, bs, s, outA) && Shared(path, b, bs, t, outB)
    ensures Shared(path, a + b, bs, s + t, outA + outB)
  {
    hide Flatten, RunEach;
    FlattenConcat(s, t);
    RunEachConcat(path, s, t, bs);
    FlattenConcat(RunEach(path, s, bs), RunEach(path, t, bs));
  }

  /** The last tuple is added to one instance. */
  lemma RouterExtends<T>(xs: seq<T>, dop: nat, choice: nat -> nat)
    requires dop > 0 && xs != []
    ensures var n := |xs| - 1;
            var w := Slot(choice(n), dop);
            var before := Router([xs[..n]], dop, choice);
            Router([xs], dop, choice) == before[w := before[w] + [xs[n]]]
  {
    hide Slot;
    var n := |xs| - 1;
    var w := Slot(choice(n), dop);
    var before := Router([xs[..n]], dop, choice);
    FlattenOne(xs);
    FlattenOne(xs[..n]);
    forall v: nat | v < dop
      ensures Router([xs], dop, choice)[v] == before[w := before[w] + [xs[n]]][v]
    {
      assert Pick(xs, dop, choice, v)
          == Pick(xs[..n], dop, choice, v) + (if w == v then [xs[n]] else []);
    }
  }

  /** Each tuple reaches exactly one instance, whatever the routing choice. */
  lemma {:induction false} RouteOnce<T>(xs: seq<T>, dop: nat, choice: nat -> nat)
    requires dop > 0
    ensures multiset(Flatten(Router([xs], dop, choice))) == multiset(xs)
    decreases |xs|
  {
    hide Slot, Router, Flatten;
    if xs == [] {
      RouterOfNone<T>(dop, choice);
    } else {
      var n := |xs| - 1;
      RouteOnce(xs[..n], dop, choice);
      RouterExtends(xs, dop, choice);
      FlattenExtend(Router([xs[..n]], dop, choice), Slot(choice(n), dop), [xs[n]]);
      assert xs == xs[..n] + [xs[n]];
    }
  }

  lemma RouterOfNone<T>(dop: nat, choice: nat -> nat)
    requires dop > 0
    ensures Flatten(Router<T>([[]], dop, choice)) == []
  {
    FlattenOne<T>([]);
    FlattenEmpty(Router<T>([[]], dop, choice));
  }

  lemma RouterOnce<T>(s: Stream<T>, dop: nat, choice: nat -> nat)
    requires dop > 0
    ensures multiset(Flatten(Router(s, dop, choice))) == multiset(Flatten(s))
  {
    FlattenOne(Flatten(s));
    assert Router(s, dop, choice) == Router([Flatten(s)], dop, choice);
    RouteOnce(Flatten(s), dop, choice);
  }

  /** A router to a single instance only merges. */
  lemma {:induction false} PickAll<T>(xs: seq<T>, choice: nat -> nat)
    ensures Pick(xs, 1, choice, 0) == xs
    decreases |xs|
  {
    hide Slot;
    if xs != [] {
      PickAll(xs[..|xs| - 1], choice);
      assert xs == xs[..|xs| - 1] + [xs[|xs| - 1]];
    }
  }

  lemma RouterToOne<T>(s: Stream<T>, choice: nat -> nat)
    ensures Router(s, 1, choice) == [Flatten(s)]
  {
    PickAll(Flatten(s), choice);
  }

  lemma {:induction false} AddressedAppend<T>(xs: seq<(nat, T)>, ys: seq<(nat, T)>, dop: nat, w: nat)
    requires dop > 0
    ensures Addressed(xs + ys, dop, w) == Addressed(xs, dop, w) + Addressed(ys, dop, w)
    decreases |ys|
  {
    if ys == [] {
      assert xs + ys == xs;
    } else {
      var n := |ys| - 1;
      assert (xs + ys)[..|xs + ys| - 1] == xs + ys[..n];
      AddressedAppend(xs, ys[..n], dop, w);
    }
  }

  lemma {:induction false} OneCopy<T>(x: T, n: nat, dop: nat, w: nat)
    requires n <= dop && w < dop
    ensures Addressed(Copies(x, n), dop, w) == if w < n then [x] else []
  {
    hide Slot;
    if n > 0 {
      OneCopy(x, n - 1, dop, w);
      SlotOfSmall(n - 1, dop);
      AddressedAppend(Copies(x, n - 1), [(n - 1, x)], dop, w);
      assert Addressed([(n - 1, x)], dop, w) == if n - 1 == w then [x] else [];
    }
  }

  /** Every target gets each broadcast tuple exactly once, in order. */
  lemma {:induction false} BroadcastReaches<T>(xs: seq<T>, dop: nat, w: nat)
    requires w < dop
    ensures Addressed(Broadcast(xs, dop), dop, w) == xs
    decreases |xs|
  {
    hide Copies, Slot;
    if xs != [] {
      var n := |xs| - 1;
      BroadcastReaches(xs[..n], dop, w);
      AddressedAppend(Broadcast(xs[..n], dop), Copies(xs[n], dop), dop, w);
      OneCopy(xs[n], dop, dop, w);
    }
  }

  // Paths that treat the probe tuples one by one.

  /** What the path makes of each probe tuple on its own, summed up. */
  ghost function Each<T>(path: Path<T>, xs: seq<T>, bs: seq<seq<T>>): multiset<T> {
    if xs == [] then multiset{}
    else Each(path, xs[..|xs| - 1], bs) + multiset(path([xs[|xs| - 1]], bs))
  }

  ghost predicate Linear<T(!new)>(path: Path<T>) {
    forall xs, bs :: multiset(path(xs, bs)) == Each(path, xs, bs)
  }

  lemma {:induction false} EachAppend<T>(path: Path<T>, xs: seq<T>, ys: seq<T>, bs: seq<seq<T>>)
    ensures Each(path, xs + ys, bs) == Each(path, xs, bs) + Each(path, ys, bs)
    decreases |ys|
  {
    if ys == [] {
      assert xs + ys == xs;
    } else {
      var n := |ys| - 1;
      assert (xs + ys)[..|xs + ys| - 1] == xs + ys[..n];
      EachAppend(path, xs, ys[..n], bs);
    }
  }

  lemma EachRemove<T>(path: Path<T>, xs: seq<T>, i: nat, bs: seq<seq<T>>)
    requires i < |xs|
    ensures Each(path, xs, bs) == Each(path, xs[..i] + xs[i + 1..], bs) + multiset(path([xs[i]], bs))
  {
    hide Each;
    var a, b := xs[..i], xs[i + 1..];
    EachAppend(path, a, [xs[i]], bs);
    EachAppend(path, a + [xs[i]], b, bs);
    EachAppend(path, a, b, bs);
    EachOfOne(path, xs[i], bs);
    assert xs == a + [xs[i]] + b;
  }

  lemma EachOfOne<T>(path: Path<T>, x: T, bs: seq<seq<T>>)
    ensures Each(path, [x], bs) == multiset(path([x], bs))
  {
    assert [x][..0] == [];
  }

  lemma {:induction false} EachPermutes<T>(path: Path<T>, xs: seq<T>, ys: seq<T>, bs: seq<seq<T>>)
    requires multiset(xs) == multiset(ys)
    ensures Each(path, xs, bs) == Each(path, ys, bs)
    decreases |xs|
  {
    if xs == [] {
      assert |multiset(ys)| == 0;
    } else {
      var n := |xs| - 1;
      var i := SameElement(xs, ys);
      EachPermutes(path, xs[..n], ys[..i] + ys[i + 1..], bs);
      EachRemove(path, ys, i, bs);
    }
  }

  lemma {:induction false} RunEachSums<T(!new)>(path: Path<T>, shares: Stream<T>, bs: seq<seq<T>>)
    requires Linear(path)
    ensures multiset(Flatten(RunEach(path, shares, bs))) == Each(path, Flatten(shares), bs)
    decreases |shares|
  {
    hide Each;
    if shares == [] {
      EachOfNone(path, bs);
    } else {
      var n := |shares| - 1;
      RunEachSums(path, shares[..n], bs);
      assert RunEach(path, shares, bs)[..n] == RunEach(path, shares[..n], bs);
      EachAppend(path, Flatten(shares[..n]), shares[n], bs);
    }
  }

  lemma EachOfNone<T>(path: Path<T>, bs: seq<seq<T>>)
    ensures Each(path, [], bs) == multiset{}
  {
  }

  /** A linear path gives the same multiset however its probe is shared out. */
  lemma LinearShares<T(!new)>(path: Path<T>, whole: seq<T>, bs: seq<seq<T>>, shares: Stream<T>, out: seq<T>)
    requires Linear(path) && Shared(path, whole, bs, shares, out)
    ensures multiset(out) == multiset(path(whole, bs))
  {
    hide Each, Flatten, RunEach;
    RunEachSums(path, shares, bs);
    EachPermutes(path, Flatten(shares), whole, bs);
  }
}
