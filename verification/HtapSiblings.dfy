/** Whether the co-located allocation gives up whole cores, each hyper-thread with its sibling. */
module HtapSiblings {
  import opened Arithmetic
  import opened HtapCores
  import opened Sequences

  /** The place in its node, which lists `ht` first hyper-threads and then their siblings. */
  function Offset(ht: nat, i: nat): (o: nat)
    requires ht > 0
    ensures o < 2 * ht && o <= i
  {
    ModBound(i, 2 * ht);
    i % (2 * ht)
  }

  function Sibling(ht: nat, i: nat): nat
    requires ht > 0
  {
    var o := Offset(ht, i);
    if o < ht then i + ht else i - ht
  }

  /** A node starts here. */
  predicate Start(ht: nat, base: nat)
    requires ht > 0
  {
    Offset(ht, base) == 0
  }

  lemma StartOf(ht: nat, i: nat)
    requires ht > 0
    ensures Start(ht, i - Offset(ht, i)) && Start(ht, i - Offset(ht, i) + 2 * ht)
  {
    var c := i / (2 * ht);
    assert i - i % (2 * ht) == c * (2 * ht);
    assert c * (2 * ht) + 2 * ht == (c + 1) * (2 * ht);
    ModOf(c, 0, 2 * ht);
    ModOf(c + 1, 0, 2 * ht);
  }

  lemma StartsApart(ht: nat, a: nat, b: nat)
    requires ht > 0 && Start(ht, a) && Start(ht, b) && a < b
    ensures a + 2 * ht <= b
  {
    WholeStretch(a, 2 * ht, b);
  }

  lemma StartIsEven(ht: nat, base: nat)
    requires ht > 0 && Start(ht, base)
    ensures base % 2 == 0
  {
    var c := base / (2 * ht);
    assert base == c * (2 * ht) == 2 * (c * ht);
  }

  lemma OffsetAt(ht: nat, base: nat, o: nat)
    requires ht > 0 && Start(ht, base) && o < 2 * ht
    ensures Offset(ht, base + o) == o
  {
    var c := base / (2 * ht);
    assert base == c * (2 * ht);
    ModOf(c, o, 2 * ht);
  }

  lemma SiblingInNode(ht: nat, i: nat, n: nat)
    requires ht > 0 && i < n && Start(ht, n)
    ensures Sibling(ht, i) < n
  {
    hide Offset;
    StartOf(ht, i);
    StartsApart(ht, i - Offset(ht, i), n);
  }

  /** When the rounds erase whole cores: a single round, nodes of two, or when the places where every other
      core is left are exactly one node. */
  predicate WholeRounds(ht: nat, m: nat)
    requires ht > 0
  {
    m == 1 || ht == 1 || (m > ht && Start(ht, 2 * m - ht))
  }

  lemma WholeKeeps(ht: nat, m: nat, base: nat, o: nat)
    requires ht > 0 && m > 0 && Start(ht, base) && o < ht && WholeRounds(ht, m)
    ensures Left(ht, m, base + o) <==> Left(ht, m, base + o + ht)
  {
    hide Offset, Start;
    StartIsEven(ht, base);
    if m == 1 {
      ZeroStarts(ht);
      if base > 0 {
        StartsApart(ht, 0, base);
      }
    } else if ht > 1 {
      var s := 2 * m - ht;
      StartIsEven(ht, s);
      if base < s {
        StartsApart(ht, base, s);
      } else if base > s {
        StartsApart(ht, s, base);
      }
    }
  }

  lemma ZeroStarts(ht: nat)
    requires ht > 0
    ensures Start(ht, 0)
  {
  }

  /** Otherwise some core is given up without its sibling. */
  lemma BrokenPair(ht: nat, m: nat, base: nat, r: nat, n: nat) returns (b: nat, o: nat)
    requires m > ht > 1 && 2 * m - ht == base + r && 0 < r < 2 * ht && base % 2 == 0 && n >= ht + 2 * m - 1
    ensures (b == base || b == base + 2 * ht) && o < ht && b + o < n
    ensures !Left(ht, m, b + o) && Left(ht, m, b + o + ht)
  {
    if r <= ht {
      b, o := base, 1;
    } else if r < 2 * ht - 1 {
      b, o := base, r - ht + 1;
    } else {
      b, o := base + 2 * ht, 1;
    }
  }

  /** The core at `i` is left exactly if its sibling is. */
  ghost predicate Together(ids: seq<nat>, ht: nat, m: nat, i: nat)
    requires ht > 0 && Start(ht, |ids|) && |ids| >= ht + 2 * m - 1 && i < |ids|
  {
    SiblingInNode(ht, i, |ids|);
    ids[i] in Erased(ids, ht, m) <==> ids[Sibling(ht, i)] in Erased(ids, ht, m)
  }

  lemma TogetherIff(ids: seq<nat>, ht: nat, m: nat, base: nat, o: nat)
    requires ht > 0 && m > 0 && Distinct(ids) && Start(ht, |ids|) && |ids| >= ht + 2 * m - 1
    requires Start(ht, base) && o < 2 * ht && base + o < |ids|
    ensures var b := if o < ht then base + o else base + o - ht;
            Together(ids, ht, m, base + o) <==> (Left(ht, m, b) <==> Left(ht, m, b + ht))
  {
    hide Left, Offset, Start, Erased;
    var i := base + o;
    SiblingInNode(ht, i, |ids|);
    OffsetAt(ht, base, o);
    LeftIff(ids, ht, m, i);
    LeftIff(ids, ht, m, Sibling(ht, i));
  }

  lemma BrokenRounds(ids: seq<nat>, ht: nat, m: nat) returns (i: nat)
    requires ht > 0 && m > 0 && Distinct(ids) && Start(ht, |ids|) && |ids| >= ht + 2 * m - 1 && !WholeRounds(ht, m)
    ensures i < |ids| && !Together(ids, ht, m, i)
  {
    hide Offset, Together, Start;
    if m <= ht {
      i := 1;
      ZeroStarts(ht);
      TogetherIff(ids, ht, m, 0, 1);
    } else {
      var s := 2 * m - ht;
      var r := Offset(ht, s);
      StartOf(ht, s);
      StartIff(ht, s);
      StartIsEven(ht, s - r);
      var b, o := BrokenPair(ht, m, s - r, r, |ids|);
      TogetherIff(ids, ht, m, b, o);
      i := b + o;
    }
  }

  lemma StartIff(ht: nat, i: nat)
    requires ht > 0
    ensures Start(ht, i) <==> Offset(ht, i) == 0
  {
  }

  /** For whole nodes and every number of rounds they have cores for: the cores given up are whole, each
      hyper-thread with its sibling, if and only if the rounds are `WholeRounds`. */
  lemma WholeCoresIff(ids: seq<nat>, ht: nat, m: nat)
    requires ht > 0 && m > 0 && Distinct(ids) && Start(ht, |ids|) && |ids| >= ht + 2 * m - 1
    ensures (forall i :: 0 <= i < |ids| ==> Together(ids, ht, m, i)) <==> WholeRounds(ht, m)
  {
    hide Left, WholeRounds, Together, Offset, Start;
    if WholeRounds(ht, m) {
      forall i | 0 <= i < |ids| ensures Together(ids, ht, m, i) {
        var o := Offset(ht, i);
        StartOf(ht, i);
        TogetherIff(ids, ht, m, i - o, o);
        WholeKeeps(ht, m, i - o, if o < ht then o else o - ht);
      }
    } else {
      var i := BrokenRounds(ids, ht, m);
    }
  }
}
