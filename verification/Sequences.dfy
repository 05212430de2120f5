/** Notions shared by the other modules. */
module Sequences {
  datatype Option<+T> = None | Some(value: T)

  function Min(a: nat, b: nat): nat {
    if a < b then a else b
  }

  ghost predicate Distinct<T>(xs: seq<T>) {
    forall i, j :: 0 <= i < j < |xs| ==> xs[i] != xs[j]
  }

  function Flatten<T>(s: seq<seq<T>>): seq<T> {
    if s == [] then [] else Flatten(s[..|s| - 1]) + s[|s| - 1]
  }

  lemma FlattenOne<T>(xs: seq<T>)
    ensures Flatten([xs]) == xs
  {
    assert [xs][..0] == [];
  }

  lemma FlattenAppend<T>(s: seq<seq<T>>, xs: seq<T>)
    ensures Flatten(s + [xs]) == Flatten(s) + xs
  {
    assert (s + [xs])[..|s|] == s;
  }

  lemma {:induction false} FlattenConcat<T>(a: seq<seq<T>>, b: seq<seq<T>>)
    ensures Flatten(a + b) == Flatten(a) + Flatten(b)
    decreases |b|
  {
    if b == [] {
      assert a + b == a;
    } else {
      var n := |b| - 1;
      assert (a + b)[..|a + b| - 1] == a + b[..n];
      FlattenConcat(a, b[..n]);
    }
  }

  /** Adding to one part adds to the whole. */
  lemma {:induction false} FlattenExtend<T>(s: seq<seq<T>>, w: nat, xs: seq<T>)
    requires w < |s|
    ensures multiset(Flatten(s[w := s[w] + xs])) == multiset(Flatten(s)) + multiset(xs)
    decreases |s|
  {
    var n := |s| - 1;
    var t := s[w := s[w] + xs];
    if w == n {
      assert t[..n] == s[..n];
    } else {
      assert t[..n] == s[..n][w := s[w] + xs];
      FlattenExtend(s[..n], w, xs);
    }
  }

  lemma {:induction false} FlattenEmpty<T>(s: seq<seq<T>>)
    requires forall w :: 0 <= w < |s| ==> s[w] == []
    ensures Flatten(s) == []
    decreases |s|
  {
    if s != [] {
      FlattenEmpty(s[..|s| - 1]);
    }
  }

  lemma RemoveAt<T>(xs: seq<T>, i: nat)
    requires i < |xs|
    ensures multiset(xs[..i] + xs[i + 1..]) == multiset(xs) - multiset{xs[i]}
  {
    assert xs == xs[..i] + ([xs[i]] + xs[i + 1..]);
    assert multiset(xs) == multiset(xs[..i] + xs[i + 1..]) + multiset{xs[i]};
  }

  /** Where the last element of a sequence is in a permutation of it. */
  lemma SameElement<T>(xs: seq<T>, ys: seq<T>) returns (i: nat)
    requires xs != [] && multiset(xs) == multiset(ys)
    ensures i < |ys| && ys[i] == xs[|xs| - 1]
    ensures multiset(xs[..|xs| - 1]) == multiset(ys[..i] + ys[i + 1..])
  {
    var n := |xs| - 1;
    assert xs[n] in multiset(ys);
    i :| 0 <= i < |ys| && ys[i] == xs[n];
    RemoveAt(ys, i);
    RemoveAt(xs, n);
    assert xs[..n] + xs[n + 1..] == xs[..n];
  }

  /** Two lists without repetition and with the same members are permutations of each other. */
  lemma {:induction false} SameMembers<T>(xs: seq<T>, ys: seq<T>)
    requires Distinct(xs) && Distinct(ys) && forall x :: x in xs <==> x in ys
    ensures multiset(xs) == multiset(ys)
  {
    forall x | x in xs || x in ys ensures multiset(xs)[x] == multiset(ys)[x] {
      CountOnce(xs, x);
      CountOnce(ys, x);
    }
  }

  lemma {:induction false} CountOnce<T>(xs: seq<T>, x: T)
    requires Distinct(xs)
    ensures multiset(xs)[x] == if x in xs then 1 else 0
    decreases |xs|
  {
    if xs != [] {
      var n := |xs| - 1;
      CountOnce(xs[..n], x);
      assert xs == xs[..n] + [xs[n]];
    }
  }
}
