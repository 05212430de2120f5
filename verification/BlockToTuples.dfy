/** Unpacking blocks into tuples: the life of the blocks' buffers over a whole pipeline run, and the
    threads' walk over the tuples of a block. */
module BlockToTuples {
  import opened Arithmetic
  import opened Sequences

  /** Releasing the null buffer does nothing; it is what the slots hold before the first block. */
  const NULL: nat := 0

  function Nulls(n: nat): (s: seq<nat>)
    ensures |s| == n && forall i :: 0 <= i < n ==> s[i] == NULL
  {
    seq(n, i => NULL)
  }

  /** The buffers in the slots after the blocks `blocks`: those of the last one. */
  function Slots(fields: nat, blocks: seq<seq<nat>>): seq<nat> {
    if blocks == [] then Nulls(fields) else blocks[|blocks| - 1]
  }

  /** The buffers handed back by then: each block hands back what was in the slots before it. */
  function Given(fields: nat, blocks: seq<seq<nat>>): seq<nat> {
    if blocks == [] then []
    else Given(fields, blocks[..|blocks| - 1]) + Slots(fields, blocks[..|blocks| - 1])
  }

  /** A pipeline's state: a slot for each block field with the buffer of the block being unpacked, and
      the buffers handed back so far. */
  class Pipeline {
    const fields: nat
    const oldBuffs: array<nat>
    var released: seq<nat>

    constructor (fields: nat)
      ensures this.fields == fields && fresh(oldBuffs) && Holds([])
    {
      this.fields := fields;
      oldBuffs := new nat[fields](_ => NULL);
      released := [];
      new;
      assert oldBuffs[..] == Nulls(fields);
    }

    ghost predicate Holds(blocks: seq<seq<nat>>)
      reads this, oldBuffs
    {
      && oldBuffs.Length == fields
      && oldBuffs[..] == Slots(fields, blocks)
      && released == Given(fields, blocks)
    }

    /** Hands back what is in the slots and puts the buffers of a new block there, slot by slot. */
    method Swap(args: seq<nat>)
      requires |args| == oldBuffs.Length == fields
      modifies this`released, oldBuffs
      ensures oldBuffs[..] == args && released == old(released) + old(oldBuffs[..])
    {
      ghost var was, before := released, oldBuffs[..];
      for j := 0 to fields
        invariant forall k :: 0 <= k < j ==> oldBuffs[k] == args[k]
        invariant forall k :: j <= k < fields ==> oldBuffs[k] == before[k]
        invariant released == was + before[..j]
      {
        released := released + [oldBuffs[j]];
        oldBuffs[j] := args[j];
        assert before[..j + 1] == before[..j] + [before[j]];
      }
      assert before[..fields] == before;
    }

    /** Only the leading thread exchanges buffers. */
    method Consume(tid: nat, args: seq<nat>, ghost blocks: seq<seq<nat>>)
      requires Holds(blocks) && |args| == fields
      modifies this`released, oldBuffs
      ensures Holds(if tid == 0 then blocks + [args] else blocks)
    {
      if tid == 0 {
        Swap(args);
        assert (blocks + [args])[..|blocks|] == blocks;
      }
    }

    /** Hands the buffers of the last block back. */
    method Close()
      requires oldBuffs.Length == fields
      modifies this`released
      ensures released == old(released) + oldBuffs[..]
    {
      for i := 0 to fields
        invariant released == old(released) + oldBuffs[..i]
      {
        released := released + [oldBuffs[i]];
      }
      assert oldBuffs[..fields] == oldBuffs[..];
    }
  }

  lemma {:induction false} GivenAre(fields: nat, blocks: seq<seq<nat>>)
    ensures Given(fields, blocks) + Slots(fields, blocks) == Nulls(fields) + Flatten(blocks)
    decreases |blocks|
  {
    if blocks != [] {
      GivenAre(fields, blocks[..|blocks| - 1]);
    }
  }

  /** Over a whole run the buffers of all blocks are handed back exactly once each and in order. */
  method Unpack(fields: nat, blocks: seq<seq<nat>>) returns (released: seq<nat>)
    requires forall k :: 0 <= k < |blocks| ==> |blocks[k]| == fields
    ensures released == Nulls(fields) + Flatten(blocks)
  {
    hide Given, Slots, Flatten;
    var p := new Pipeline(fields);
    assert blocks[..0] == [];
    for k := 0 to |blocks|
      invariant fresh(p) && fresh(p.oldBuffs) && p.fields == fields && p.Holds(blocks[..k])
    {
      assert blocks[..k + 1] == blocks[..k] + [blocks[k]];
      p.Consume(0, blocks[k], blocks[..k]);
    }
    assert blocks[..|blocks|] == blocks;
    p.Close();
    GivenAre(fields, blocks);
    released := p.released;
  }

  lemma DistinctApart(a: seq<nat>, b: seq<nat>, x: nat)
    requires Distinct(a + b) && x in b
    ensures x !in a
  {
    var j :| 0 <= j < |b| && b[j] == x;
    forall i | 0 <= i < |a| ensures a[i] != x {
      assert (a + b)[i] == a[i] && (a + b)[|a| + j] == x;
    }
  }

  /** As long as all buffers of the run are distinct and none is null, none that has been handed back is
      in a slot. */
  lemma CurrentNotReleased(fields: nat, blocks: seq<seq<nat>>, x: nat)
    requires Distinct(Flatten(blocks)) && x in Slots(fields, blocks) && x != NULL
    ensures x !in Given(fields, blocks)
  {
    if blocks != [] {
      var front := blocks[..|blocks| - 1];
      GivenAre(fields, front);
      DistinctApart(Flatten(front), blocks[|blocks| - 1], x);
    }
  }

  // The walk over the tuples.

  /** A tuple passed on: its index in the block and the tuple identifier bound to it. */
  datatype Item = Item(index: nat, oid: nat)

  /** The stride: on a GPU with grid granularity the number of threads, else one. */
  function Step(gpu: bool, grid: bool, threads: nat): nat {
    if gpu && grid then threads else 1
  }

  /** The loop over a block: it starts at the thread's number and goes by the stride.  The identifier
      bound to a tuple lives in a counter of its own, which the loop does not advance. */
  method ForEach(tid: nat, step: nat, cnt: nat) returns (items: seq<Item>)
    requires step > 0
    ensures forall k :: 0 <= k < |items| ==> items[k].oid == tid && items[k].index < cnt
    ensures forall j, k :: 0 <= j < k < |items| ==> items[j].index < items[k].index
    ensures forall i: nat :: i < cnt ==> (Visited(items, i) <==> OnWalk(i, tid, step))
  {
    items := [];
    var i, oid := tid, tid;
    while i < cnt
      invariant OnWalk(i, tid, step)
      invariant forall k :: 0 <= k < |items| ==> items[k].oid == tid && items[k].index < cnt && items[k].index < i
      invariant forall j, k :: 0 <= j < k < |items| ==> items[j].index < items[k].index
      invariant forall x: nat :: x < i ==> (Visited(items, x) <==> OnWalk(x, tid, step))
      decreases cnt - i
    {
      ghost var before := items;
      items := items + [Item(i, oid)];
      forall x: nat | x < i + step ensures Visited(items, x) <==> OnWalk(x, tid, step) {
        if x >= i {
          WalkNext(i, tid, step, x);
        }
        VisitedNext(before, Item(i, oid), x);
      }
      WalkNext(i, tid, step, i + step);
      i := i + step;
    }
  }

  /** An index a walk from `tid` by `step` comes across. */
  predicate OnWalk(i: nat, tid: nat, step: nat)
    requires step > 0
  {
    i >= tid && (i - tid) % step == 0
  }

  ghost predicate Visited(items: seq<Item>, i: nat) {
    exists k :: 0 <= k < |items| && items[k].index == i
  }

  lemma VisitedNext(items: seq<Item>, item: Item, x: nat)
    ensures Visited(items + [item], x) <==> Visited(items, x) || item.index == x
  {
    var more := items + [item];
    if Visited(items, x) {
      var k :| 0 <= k < |items| && items[k].index == x;
      assert more[k].index == x;
    }
    assert more[|items|] == item;
  }

  /** Between one index and the next the walk has no other. */
  lemma WalkNext(i: nat, tid: nat, step: nat, x: nat)
    requires step > 0 && OnWalk(i, tid, step) && i <= x <= i + step
    ensures OnWalk(x, tid, step) <==> x == i || x == i + step
  {
    var q := (i - tid) / step;
    assert i - tid == q * step;
    if x < i + step {
      ModOf(q, x - i, step);
    } else {
      ModOf(q + 1, 0, step);
      assert (q + 1) * step == q * step + step;
    }
  }

  /** On a grid every index is visited by exactly one thread, the one of its remainder. */
  lemma GridVisitsOnce(i: nat, tid: nat, threads: nat)
    requires tid < threads
    ensures OnWalk(i, tid, threads) <==> tid == i % threads
  {
    var q := i / threads;
    var r := i % threads;
    assert i == q * threads + r;
    if i >= tid && (i - tid) % threads == 0 {
      var p := (i - tid) / threads;
      assert i - tid == p * threads;
      ModOf(p, tid, threads);
    }
    if tid == r {
      ModOf(q, 0, threads);
    }
  }

  /** The index is visited by exactly one of the threads. */
  ghost predicate ByOne(i: nat, threads: nat, step: nat)
    requires step > 0
  {
    exists tid: nat :: tid < threads && OnWalk(i, tid, step)
      && forall u: nat :: u < threads && OnWalk(i, u, step) ==> u == tid
  }

  ghost predicate SharedOnce(threads: nat, step: nat, cnt: nat)
    requires step > 0
  {
    forall i: nat :: i < cnt ==> ByOne(i, threads, step)
  }

  /** With the grid's stride the threads always share a block so; with stride one exactly if there is one
      thread or at most one tuple. */
  lemma SharedOnceIff(gpu: bool, grid: bool, threads: nat, cnt: nat)
    requires threads > 0
    ensures SharedOnce(threads, Step(gpu, grid, threads), cnt) <==> (gpu && grid) || threads == 1 || cnt <= 1
  {
    var step := Step(gpu, grid, threads);
    if gpu && grid {
      forall i: nat | i < cnt ensures ByOne(i, threads, step) {
        GridVisitsOnce(i, i % threads, threads);
        forall u: nat | u < threads && OnWalk(i, u, step) ensures u == i % threads {
          GridVisitsOnce(i, u, threads);
        }
      }
    } else if threads == 1 || cnt <= 1 {
      forall i: nat | i < cnt ensures ByOne(i, threads, step) {
        OnUnitWalk(i, 0);
      }
    } else {
      OnUnitWalk(1, 0);
      OnUnitWalk(1, 1);
      assert !ByOne(1, threads, 1);
    }
  }

  lemma OnUnitWalk(i: nat, tid: nat)
    ensures OnWalk(i, tid, 1) <==> i >= tid
  {
  }
}
