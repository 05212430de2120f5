/** The allocation of cores to analytical queries in the scheduler's states. */
module HtapCores {
  import opened Sequences

  /** Cores with their hyper-thread siblings, which are numbered `shift` higher. */
  function Pairs(ids: seq<nat>, shift: nat): (r: seq<nat>)
    ensures |r| == 2 * |ids|
  {
    if ids == [] then []
    else
      var last := ids[|ids| - 1];
      Pairs(ids[..|ids| - 1], shift) + [last, last + shift]
  }

  /** What is left after `m` rounds that each erase the first core and then the one at `ht - 1`. */
  function Erased(ids: seq<nat>, ht: nat, m: nat): (r: seq<nat>)
    requires m > 0 ==> ht > 0 && |ids| >= ht + 2 * m - 1
    ensures |r| == |ids| - 2 * m
    decreases m
  {
    if m == 0 then ids else Erased(ids[1..ht] + ids[ht + 1..], ht, m - 1)
  }

  function Half(t: nat): nat {
    (t + 1) / 2
  }

  /** The cores of the analytical nodes. */
  method IsolatedCores(olap: seq<seq<nat>>) returns (cores: seq<nat>)
    ensures cores == Flatten(olap)
  {
    cores := [];
    for n := 0 to |olap|
      invariant cores == Flatten(olap[..n])
    {
      assert olap[..n + 1][..n] == olap[..n];
      var base := cores;
      for i := 0 to |olap[n]|
        invariant cores == base + olap[n][..i]
      {
        cores := cores + [olap[n][i]];
      }
    }
    assert olap[..|olap|] == olap;
  }

  lemma PairsNext(ids: seq<nat>, id: nat, shift: nat)
    ensures Pairs(ids + [id], shift) == Pairs(ids, shift) + [id, id + shift]
  {
    assert (ids + [id])[..|ids|] == ids;
  }

  /** How many cores of a node are paired when `k` of `t` cores have been found. */
  function Room(node: seq<nat>, k: nat, t: nat): (n: nat)
    ensures n <= |node|
  {
    Min(|node|, if k < t then Half(t - k) else 0)
  }

  /** The loop over one transactional node. */
  method AddNode(cores: seq<nat>, k: nat, node: seq<nat>, t: nat, shift: nat)
    returns (r: seq<nat>, k1: nat)
    requires k % 2 == 0
    ensures var n := Room(node, k, t);
            r == cores + Pairs(node[..n], shift) && k1 == k + 2 * n
  {
    r, k1 := cores, k;
    assert Pairs(node[..0], shift) == [];
    hide Pairs;
    for i := 0 to |node|
      invariant i == 0 || k + 2 * (i - 1) < t
      invariant r == cores + Pairs(node[..i], shift) && k1 == k + 2 * i
    {
      if k1 >= t {
        return;
      }
      assert Pairs(node[..i + 1], shift) == Pairs(node[..i], shift) + [node[i], node[i] + shift] by {
        assert node[..i + 1] == node[..i] + [node[i]];
        PairsNext(node[..i], node[i], shift);
      }
      r := r + [node[i], node[i] + shift];
      k1 := k1 + 2;
    }
  }

  lemma {:induction false} FlatPrefix(nodes: seq<seq<nat>>, n: nat)
    requires n <= |nodes|
    ensures Flatten(nodes[..n]) <= Flatten(nodes)
    decreases |nodes|
  {
    if n < |nodes| {
      FlatPrefix(nodes[..|nodes| - 1], n);
      assert nodes[..|nodes| - 1][..n] == nodes[..n];
    } else {
      assert nodes[..n] == nodes;
    }
  }

  lemma {:induction false} PairsConcat(a: seq<nat>, b: seq<nat>, shift: nat)
    ensures Pairs(a + b, shift) == Pairs(a, shift) + Pairs(b, shift)
    decreases |b|
  {
    assert Pairs([], shift) == [];
    hide Pairs;
    if b == [] {
      assert a + b == a;
    } else {
      var n := |b| - 1;
      PairsConcat(a, b[..n], shift);
      assert a + b == (a + b[..n]) + [b[n]];
      PairsNext(a + b[..n], b[n], shift);
      assert b == b[..n] + [b[n]];
      PairsNext(b[..n], b[n], shift);
    }
  }

  /** How many cores of `ids` are paired to meet a threshold. */
  function Taken(ids: seq<nat>, t: nat): nat {
    Min(|ids|, Half(t))
  }

  function Added(ids: seq<nat>, t: nat, shift: nat): seq<nat> {
    Pairs(ids[..Taken(ids, t)], shift)
  }

  lemma AddedStep(ids: seq<nat>, node: seq<nat>, t: nat, shift: nat)
    ensures var k := 2 * Taken(ids, t);
            var n := Room(node, k, t);
            && Added(ids + node, t, shift) == Added(ids, t, shift) + Pairs(node[..n], shift)
            && Taken(ids + node, t) == Taken(ids, t) + n
  {
    hide Pairs;
    var k := 2 * Taken(ids, t);
    var n := Room(node, k, t);
    assert (ids + node)[..Taken(ids, t) + n] == ids[..Taken(ids, t)] + node[..n];
    PairsConcat(ids[..Taken(ids, t)], node[..n], shift);
  }

  lemma AddedDone(ids: seq<nat>, all: seq<nat>, t: nat, shift: nat)
    requires ids <= all && 2 * Taken(ids, t) >= t
    ensures Added(all, t, shift) == Added(ids, t, shift) && Taken(all, t) == Taken(ids, t)
  {
    assert all[..Taken(ids, t)] == ids[..Taken(ids, t)];
  }

  lemma FlatNext(nodes: seq<seq<nat>>, d: nat)
    requires d < |nodes|
    ensures Flatten(nodes[..d + 1]) == Flatten(nodes[..d]) + nodes[d]
  {
    assert nodes[..d + 1][..d] == nodes[..d];
  }

  /** The nested loops over the transactional nodes: pairs are added until the threshold is met. */
  method AddPairs(cores: seq<nat>, oltp: seq<seq<nat>>, t: nat, shift: nat)
    returns (r: seq<nat>, k: nat)
    ensures r == cores + Added(Flatten(oltp), t, shift) && k == 2 * Taken(Flatten(oltp), t)
  {
    r, k := cores, 0;
    assert Flatten(oltp[..0]) == [] && Added([], t, shift) == [];
    hide Added, Taken, Pairs, Flatten, Room;
    for d := 0 to |oltp|
      invariant r == cores + Added(Flatten(oltp[..d]), t, shift)
      invariant k == 2 * Taken(Flatten(oltp[..d]), t)
    {
      AddedNext(cores, oltp, d, t, shift);
      r, k := AddNode(r, k, oltp[d], t, shift);
      if k >= t {
        FlatPrefix(oltp, d + 1);
        AddedDone(Flatten(oltp[..d + 1]), Flatten(oltp), t, shift);
        return;
      }
    }
    assert oltp[..|oltp|] == oltp;
  }

  lemma AddedNext(cores: seq<nat>, oltp: seq<seq<nat>>, d: nat, t: nat, shift: nat)
    requires d < |oltp|
    ensures var ids := Flatten(oltp[..d]);
            var n := Room(oltp[d], 2 * Taken(ids, t), t);
            && cores + Added(ids, t, shift) + Pairs(oltp[d][..n], shift)
               == cores + Added(Flatten(oltp[..d + 1]), t, shift)
            && Taken(Flatten(oltp[..d + 1]), t) == Taken(ids, t) + n
  {
    hide Added, Taken, Pairs, Flatten, Room;
    FlatNext(oltp, d);
    AddedStep(Flatten(oltp[..d]), oltp[d], t, shift);
  }

  /** The erasures of the co-located allocation, each of which needs a core to erase. */
  method EraseCores(all: seq<nat>, ht: nat, t: nat) returns (ok: bool, cores: seq<nat>)
    ensures ok <==> t == 0 || (ht > 0 && |all| >= ht + 2 * Half(t) - 1)
    ensures ok ==> cores == Erased(all, ht, Half(t))
  {
    cores := all;
    var rem := 0;
    ghost var left := Half(t);
    while rem < t
      invariant rem == 2 * (Half(t) - left) && 0 <= left <= Half(t)
      invariant |cores| == |all| - rem && (rem > 0 ==> ht > 0)
      invariant left > 0 && ht > 0 && |cores| >= ht + 2 * left - 1 ==>
                  |all| >= ht + 2 * Half(t) - 1 && Erased(all, ht, Half(t)) == Erased(cores, ht, left)
      invariant left == 0 ==>
                  (t > 0 ==> ht > 0 && |all| >= ht + 2 * Half(t) - 1) && Erased(all, ht, Half(t)) == cores
      decreases t - rem
    {
      if |cores| == 0 || ht == 0 || |cores| - 1 <= ht - 1 {
        return false, [];
      }
      ghost var before := cores;
      cores := cores[1..];
      cores := cores[..ht - 1] + cores[ht..];
      assert cores == before[1..ht] + before[ht + 1..];
      rem := rem + 2;
      left := left - 1;
    }
    assert left == 0;
    ok := true;
  }

  datatype Allocation = Failed | Cores(ids: seq<nat>)

  /** The co-located allocation.  It fails where an erasure has no core to erase or the last assertion
      does not hold. */
  method ColocatedCores(olap: seq<seq<nat>>, oltp: seq<seq<nat>>, localCores: nat, t: nat)
    returns (r: Allocation)
    ensures r.Cores? <==> Feasible(|Flatten(olap)|, |Flatten(oltp)|, localCores / 2, t)
    ensures r.Cores? ==>
              r.ids == Erased(Flatten(olap), localCores / 2, t / 2)
                       + Pairs(Flatten(oltp)[..t / 2], 2 * (localCores / 2))
  {
    var ht := localCores / 2;
    var cores := IsolatedCores(olap);
    var ok, kept := EraseCores(cores, ht, t);
    if !ok {
      return Failed;
    }
    var ids, k := AddPairs(kept, oltp, t, 2 * ht);
    if k != t {
      return Failed;
    }
    r := Cores(ids);
  }

  /** What a caller can check: an even threshold, enough transactional cores, and enough analytical
      cores for the last erasure. */
  predicate Feasible(olap: nat, oltp: nat, ht: nat, t: nat) {
    t % 2 == 0 && t / 2 <= oltp && (t > 0 ==> ht > 0 && olap + 1 >= ht + t)
  }

  /** The elastic allocation. */
  method ElasticCores(olap: seq<seq<nat>>, oltp: seq<seq<nat>>, localCores: nat, t: nat)
    returns (r: Allocation)
    ensures r.Cores? <==> t % 2 == 0 && t / 2 <= |Flatten(oltp)|
    ensures r.Cores? ==> r.ids == Flatten(olap) + Pairs(Flatten(oltp)[..t / 2], localCores)
  {
    var cores := IsolatedCores(olap);
    var ids, k := AddPairs(cores, oltp, t, localCores);
    if k != t {
      return Failed;
    }
    r := Cores(ids);
  }

  /** Additions balance erasures: co-location uses as many cores as isolation, elasticity exactly the
      threshold more. */
  lemma CoreCounts(olap: seq<nat>, oltp: seq<nat>, ht: nat, t: nat)
    requires Feasible(|olap|, |oltp|, ht, t)
    ensures |Erased(olap, ht, t / 2) + Pairs(oltp[..t / 2], 2 * ht)| == |olap|
    ensures forall shift: nat :: |olap + Pairs(oltp[..t / 2], shift)| == |olap| + t
  {
    assert |oltp[..t / 2]| == t / 2;
  }

  // Which cores are erased.

  /** Where the core stood that is at `j` after `m` rounds: the rounds take the first half from its front and
      of what follows every other core, and then the cores that they left there. */
  function Place(ht: nat, m: nat, j: nat): nat {
    var x := m + j;
    if j >= ht then j + 2 * m else if x < ht then x else 2 * x - ht + 1
  }

  lemma {:induction false} ErasedAt(ids: seq<nat>, ht: nat, m: nat, j: nat)
    requires (m > 0 ==> ht > 0 && |ids| >= ht + 2 * m - 1) && j < |ids| - 2 * m
    ensures Place(ht, m, j) < |ids| && Erased(ids, ht, m)[j] == ids[Place(ht, m, j)]
    decreases m
  {
    if m > 0 {
      var rest := ids[1..ht] + ids[ht + 1..];
      ErasedAt(rest, ht, m - 1, j);
      var p := Place(ht, m - 1, j);
      assert rest[p] == ids[if p < ht - 1 then p + 1 else p + 2];
    }
  }

  /** Whether the core at `i` is left after `m` rounds. */
  predicate Left(ht: nat, m: nat, i: nat) {
    i >= ht + 2 * m || m <= i < ht || (i > ht && (i - ht) % 2 == 1 && i + ht > 2 * m)
  }

  lemma LeftIff(ids: seq<nat>, ht: nat, m: nat, i: nat)
    requires ht > 0 && |ids| >= ht + 2 * m - 1 && |ids| >= 2 * m && i < |ids| && Distinct(ids)
    ensures ids[i] in Erased(ids, ht, m) <==> Left(ht, m, i)
  {
    hide Erased;
    var kept := Erased(ids, ht, m);
    if Left(ht, m, i) {
      var j := if i >= ht + 2 * m then i - 2 * m else if i < ht then i - m else (i + ht - 1) / 2 - m;
      ErasedAt(ids, ht, m, j);
      assert kept[j] == ids[i];
    }
    if ids[i] in kept {
      var j :| 0 <= j < |kept| && kept[j] == ids[i];
      ErasedAt(ids, ht, m, j);
    }
  }

  // No core is listed twice.

  lemma {:induction false} PairsAt(ids: seq<nat>, shift: nat, i: nat)
    requires i < |ids|
    ensures Pairs(ids, shift)[2 * i] == ids[i] && Pairs(ids, shift)[2 * i + 1] == ids[i] + shift
    decreases |ids|
  {
    if i < |ids| - 1 {
      PairsAt(ids[..|ids| - 1], shift, i);
    }
  }

  /** The members of a list of pairs are the cores and their siblings. */
  lemma PairOf(ids: seq<nat>, shift: nat, p: nat)
    requires p < 2 * |ids|
    ensures Pairs(ids, shift)[p] == ids[p / 2] + if p % 2 == 0 then 0 else shift
  {
    PairsAt(ids, shift, p / 2);
  }

  /** How cores are laid out: the transactional cores start with first hyper-threads, whose siblings come
      next and are numbered `shift` higher; none of them is an analytical core. */
  ghost predicate Layout(olap: seq<nat>, first: seq<nat>, more: seq<nat>, shift: nat) {
    && Distinct(olap) && Distinct(first) && first != []
    && (more != [] ==> more[0] == first[0] + shift)
    && (forall i, j :: 0 <= i < |first| && 0 <= j < |first| ==> first[i] != first[j] + shift)
    && (forall i :: 0 <= i < |first| ==> first[i] !in olap && first[i] + shift !in olap)
  }

  /** No core is added twice exactly if the first hyper-threads suffice. */
  lemma AddedOnceIff(olap: seq<nat>, first: seq<nat>, more: seq<nat>, shift: nat, m: nat)
    requires Layout(olap, first, more, shift) && m <= |first| + |more|
    ensures Distinct(Pairs((first + more)[..m], shift)) <==> m <= |first|
  {
    var ids := (first + more)[..m];
    var ps := Pairs(ids, shift);
    if m <= |first| {
      forall p, q | 0 <= p < q < |ps| ensures ps[p] != ps[q] {
        PairOf(ids, shift, p);
        PairOf(ids, shift, q);
      }
    } else {
      PairOf(ids, shift, 1);
      PairOf(ids, shift, 2 * |first|);
    }
  }

  lemma AddedAreNew(olap: seq<nat>, first: seq<nat>, more: seq<nat>, shift: nat, m: nat, p: nat)
    requires Layout(olap, first, more, shift) && m <= |first| && p < 2 * m
    ensures Pairs((first + more)[..m], shift)[p] !in olap
  {
    var ids := (first + more)[..m];
    PairOf(ids, shift, p);
    assert ids[p / 2] == first[p / 2];
  }

  lemma DistinctConcat(a: seq<nat>, b: seq<nat>)
    requires Distinct(a) && Distinct(b) && forall j :: 0 <= j < |b| ==> b[j] !in a
    ensures Distinct(a + b)
  {
  }

  lemma DistinctTail(a: seq<nat>, b: seq<nat>)
    requires Distinct(a + b)
    ensures Distinct(b)
  {
    forall i, j | 0 <= i < j < |b| ensures b[i] != b[j] {
      assert (a + b)[|a| + i] == b[i] && (a + b)[|a| + j] == b[j];
    }
  }

  lemma {:induction false} ErasedDistinct(ids: seq<nat>, ht: nat, m: nat)
    requires Distinct(ids) && (m > 0 ==> ht > 0 && |ids| >= ht + 2 * m - 1)
    ensures Distinct(Erased(ids, ht, m)) && forall x :: x in Erased(ids, ht, m) ==> x in ids
    decreases m
  {
    if m > 0 {
      ErasedDistinct(ids[1..ht] + ids[ht + 1..], ht, m - 1);
    }
  }

  /** What stands before the added cores, if it is drawn from the analytical ones. */
  lemma AllocatedOnceIff(kept: seq<nat>, olap: seq<nat>, first: seq<nat>, more: seq<nat>, shift: nat, m: nat)
    requires Layout(olap, first, more, shift) && m <= |first| + |more|
    requires Distinct(kept) && forall x :: x in kept ==> x in olap
    ensures Distinct(kept + Pairs((first + more)[..m], shift)) <==> m <= |first|
  {
    hide Pairs;
    var added := Pairs((first + more)[..m], shift);
    AddedOnceIff(olap, first, more, shift, m);
    if m <= |first| {
      forall p | 0 <= p < |added| ensures added[p] !in kept {
        AddedAreNew(olap, first, more, shift, m, p);
      }
      DistinctConcat(kept, added);
    } else if Distinct(kept + added) {
      DistinctTail(kept, added);
    }
  }

  /** Both allocations list no core twice exactly if the first hyper-threads suffice for the threshold. */
  lemma ColocatedDistinctIff(olap: seq<nat>, first: seq<nat>, more: seq<nat>, localCores: nat, t: nat)
    requires var ht := localCores / 2;
             Feasible(|olap|, |first + more|, ht, t) && Layout(olap, first, more, 2 * ht)
    ensures var ht := localCores / 2;
            Distinct(Erased(olap, ht, t / 2) + Pairs((first + more)[..t / 2], 2 * ht)) <==> t / 2 <= |first|
  {
    hide Pairs, Erased;
    var ht := localCores / 2;
    ErasedDistinct(olap, ht, t / 2);
    AllocatedOnceIff(Erased(olap, ht, t / 2), olap, first, more, 2 * ht, t / 2);
  }

  lemma ElasticDistinctIff(olap: seq<nat>, first: seq<nat>, more: seq<nat>, localCores: nat, t: nat)
    requires t % 2 == 0 && t / 2 <= |first + more| && Layout(olap, first, more, localCores)
    ensures Distinct(olap + Pairs((first + more)[..t / 2], localCores)) <==> t / 2 <= |first|
  {
    hide Pairs;
    AllocatedOnceIff(olap, olap, first, more, localCores, t / 2);
  }
}
