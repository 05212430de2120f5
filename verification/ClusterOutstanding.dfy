/** A broadcast while something of its query is outstanding.  The promise that every executor is logged
    once can then always be broken, so it holds exactly if nothing is outstanding. */
module ClusterOutstanding {
  import opened ClusterQueries
  import opened Sequences

  // Bringing everything to rest without logging anything.

  ghost predicate NoStart(ops: seq<Op>) {
    forall i :: 0 <= i < |ops| ==> !ops[i].Start?
  }

  lemma {:induction false} RunsConcat(s: State, a: seq<Op>, y: State, b: seq<Op>, z: State)
    requires Runs(s, a, y) && Runs(y, b, z)
    ensures Runs(s, a + b, z)
    decreases |a|
  {
    if a == [] {
      assert a + b == b;
    } else {
      RunsConcat(Apply(s, a[0]), a[1..], y, b, z);
      assert (a + b)[1..] == a[1..] + b;
    }
  }

  lemma RunsOne(s: State, op: Op)
    requires Enabled(s, op)
    ensures Runs(s, [op], Apply(s, op))
  {
    assert [op][1..] == [];
  }

  /** Nothing was logged on the way, and no request ended well. */
  ghost predicate Silent(s: State, z: State) {
    && z.log == s.log && |s.requests| <= |z.requests| && |z.casts| == |s.casts|
    && (forall r :: 0 <= r < |z.requests| && z.requests[r].phase == Ended(true) ==>
          r < |s.requests| && s.requests[r].phase == Ended(true))
  }

  ghost predicate Emptied(s: State, k: nat) {
    k <= |s.casts| && forall c :: 0 <= c < k ==> s.casts[c].todo == []
  }

  /** All remaining calls of one broadcast fail. */
  lemma {:induction false} DrainCast(s: State, c: nat) returns (ops: seq<Op>, z: State)
    requires c < |s.casts|
    ensures Runs(s, ops, z) && NoStart(ops) && Silent(s, z)
    ensures z.casts == s.casts[c := s.casts[c].(todo := [])]
    decreases |s.casts[c].todo|
  {
    if s.casts[c].todo == [] {
      ops, z := [], s;
      assert s.casts[c] == s.casts[c].(todo := []);
    } else {
      var y := ApplySend(s, c, false);
      var more;
      more, z := DrainCast(y, c);
      RunsOne(s, Send(c, false));
      RunsConcat(s, [Send(c, false)], y, more, z);
      ops := [Send(c, false)] + more;
    }
  }

  lemma {:induction false} DrainCasts(s: State, k: nat) returns (ops: seq<Op>, z: State)
    requires k <= |s.casts|
    ensures Runs(s, ops, z) && NoStart(ops) && Silent(s, z) && Emptied(z, k)
    decreases k
  {
    if k == 0 {
      ops, z := [], s;
    } else {
      var a, y := DrainCasts(s, k - 1);
      var b;
      b, z := DrainCast(y, k - 1);
      RunsConcat(s, a, y, b, z);
      ops := a + b;
    }
  }

  /** An end that the primary does not hear of. */
  function Unheard(kind: Kind): End {
    match kind
    case Prepare => Notify(ERROR, false)
    case Execute => Threw
  }

  lemma {:induction false} DrainTasks(s: State, k: nat) returns (ops: seq<Op>, z: State)
    requires k <= |s.requests|
    ensures Runs(s, ops, z) && NoStart(ops) && Silent(s, z) && z.casts == s.casts
    ensures |z.requests| == |s.requests| && forall r :: 0 <= r < k ==> !z.requests[r].phase.Queued?
    decreases k
  {
    if k == 0 {
      ops, z := [], s;
    } else {
      var a, y := DrainTasks(s, k - 1);
      if y.requests[k - 1].phase.Queued? {
        var op := Finish(k - 1, Unheard(y.requests[k - 1].kind));
        z := Apply(y, op);
        RunsOne(y, op);
        RunsConcat(s, a, y, [op], z);
        ops := a + [op];
      } else {
        ops, z := a, y;
      }
    }
  }

  lemma Drain(s: State, query: string) returns (ops: seq<Op>, z: State)
    ensures Runs(s, ops, z) && NoStart(ops) && Silent(s, z) && Quiet(z, query)
  {
    hide Runs;
    var a, y := DrainCasts(s, |s.casts|);
    var b;
    b, z := DrainTasks(y, |y.requests|);
    RunsConcat(s, a, y, b, z);
    ops := a + b;
  }

  // A task that is still outstanding.

  function Heard(kind: Kind): End {
    Notify(if kind == Prepare then PREPARED else EXECUTED, true)
  }

  /** Its notification can be logged as if it belonged to the new broadcast. */
  lemma TaskSpoils(s: State, query: string, kind: Kind, targets: seq<nat>, r: nat)
    returns (ops: seq<Op>, z: State)
    requires Distinct(targets) && r < |s.requests| && s.requests[r].query == query && s.requests[r].phase.Queued?
    ensures Runs(Apply(s, Start(query, kind, targets)), ops, z) && Alone(ops, query) && Quiet(z, query)
    ensures !LoggedOnce(s, z, query, kind, targets)
  {
    hide Runs, Called;
    var s1 := Apply(s, Start(query, kind, targets));
    var op := Finish(r, Heard(s.requests[r].kind));
    var s2 := Apply(s1, op);
    var more;
    more, z := Drain(s2, query);
    RunsOne(s1, op);
    RunsConcat(s1, [op], s2, more, z);
    ops := [op] + more;
    var e := s.requests[r].executor;
    assert Entries(s1.log, query) == [];
    assert Senders(Entries(z.log, query))[0] == e;
    assert e in Senders(Entries(z.log, query));
    forall i | |s.requests| <= i < |z.requests| ensures z.requests[i].phase != Ended(true) {
    }
    assert Request(query, e, kind, Ended(true)) !in z.requests[|s.requests|..];
  }

  // A broadcast that is still under way.

  /** The calls that are still to be made for a query. */
  function ToCall(casts: seq<Broadcast>, query: string): nat {
    if casts == [] then 0
    else
      var last := casts[|casts| - 1];
      ToCall(casts[..|casts| - 1], query) + if last.query == query then |last.todo| else 0
  }

  lemma ToCallNext(casts: seq<Broadcast>, b: Broadcast, query: string)
    ensures ToCall(casts + [b], query) == ToCall(casts, query) + if b.query == query then |b.todo| else 0
  {
    assert (casts + [b])[..|casts|] == casts;
  }

  lemma {:induction false} ToCallUpdate(casts: seq<Broadcast>, c: nat, todo: seq<nat>, query: string)
    requires c < |casts|
    ensures ToCall(casts[c := casts[c].(todo := todo)], query)
         == ToCall(casts, query) + if casts[c].query == query then |todo| - |casts[c].todo| else 0
    decreases |casts|
  {
    var n := |casts| - 1;
    var changed := casts[c := casts[c].(todo := todo)];
    if c < n {
      ToCallUpdate(casts[..n], c, todo, query);
      assert changed[..n] == casts[..n][c := casts[c].(todo := todo)];
    } else {
      assert changed[..n] == casts[..n];
    }
  }

  lemma {:induction false} ToCallAtLeast(casts: seq<Broadcast>, c: nat, query: string)
    requires c < |casts| && casts[c].query == query
    ensures ToCall(casts, query) >= |casts[c].todo|
    decreases |casts|
  {
    if c < |casts| - 1 {
      ToCallAtLeast(casts[..|casts| - 1], c, query);
    }
  }

  lemma {:induction false} ToCallNone(casts: seq<Broadcast>, query: string)
    requires forall c :: 0 <= c < |casts| ==> casts[c].query == query ==> casts[c].todo == []
    ensures ToCall(casts, query) == 0
    decreases |casts|
  {
    if casts != [] {
      ToCallNone(casts[..|casts| - 1], query);
    }
  }

  /** Calls made since `base` and calls still to be made. */
  ghost function AllCalls(s: State, query: string, base: nat): nat
    requires base <= |s.requests|
  {
    |Called(s.requests[base..], query)| + ToCall(s.casts, query)
  }

  lemma StepCounts(s: State, op: Op, query: string, base: nat)
    requires base <= |s.requests| && Enabled(s, op) && (op.Start? ==> op.query != query)
    ensures base <= |Apply(s, op).requests| && AllCalls(Apply(s, op), query, base) == AllCalls(s, query, base)
  {
    hide Called, ToCall;
    var z := Apply(s, op);
    match op
    case Start(q, kind, executors) => ToCallNext(s.casts, Broadcast(q, kind, executors), query);
    case Send(c, _) =>
      var r := z.requests[|s.requests|];
      assert z.requests[base..] == s.requests[base..] + [r];
      CalledNext(s.requests[base..], r, query);
      ToCallUpdate(s.casts, c, s.casts[c].todo[1..], query);
    case Finish(r, _) =>
      var tail := s.requests[base..];
      if r >= base {
        CalledUpdate(tail, r - base, z.requests[r].phase, query);
        assert z.requests[base..] == tail[r - base := tail[r - base].(phase := z.requests[r].phase)];
      } else {
        assert z.requests[base..] == tail;
      }
    case Read(_) =>
  }

  lemma {:induction false} RunCounts(s: State, ops: seq<Op>, z: State, query: string, base: nat)
    requires base <= |s.requests| && Runs(s, ops, z) && Alone(ops, query)
    ensures base <= |z.requests| && AllCalls(z, query, base) == AllCalls(s, query, base)
    decreases |ops|
  {
    if ops != [] {
      assert ops[0].Start? ==> ops[0].query != query;
      assert Alone(ops[1..], query);
      hide Apply, Enabled, Alone, AllCalls;
      StepCounts(s, ops[0], query, base);
      RunCounts(Apply(s, ops[0]), ops[1..], z, query, base);
    }
  }

  /** Its calls are made after the new broadcast has started, so in every run there are too many. */
  lemma BroadcastSpoils(s: State, query: string, kind: Kind, targets: seq<nat>, c: nat, ops: seq<Op>, z: State)
    requires Distinct(targets) && c < |s.casts| && s.casts[c].query == query && s.casts[c].todo != []
    requires Runs(Apply(s, Start(query, kind, targets)), ops, z) && Alone(ops, query) && Quiet(z, query)
    ensures !LoggedOnce(s, z, query, kind, targets)
  {
    hide Runs, Called, ToCall;
    var s1 := Apply(s, Start(query, kind, targets));
    RunCounts(s1, ops, z, query, |s.requests|);
    ToCallNone(z.casts, query);
    ToCallNext(s.casts, Broadcast(query, kind, targets), query);
    ToCallAtLeast(s.casts, c, query);
  }

  /** Whatever happens after the broadcast has started, once everything has come to rest it is logged
      once. */
  ghost predicate AlwaysLoggedOnce(s: State, query: string, kind: Kind, targets: seq<nat>)
    requires Distinct(targets)
  {
    forall ops, z ::
      Runs(Apply(s, Start(query, kind, targets)), ops, z) && Alone(ops, query) && Quiet(z, query) ==>
        LoggedOnce(s, z, query, kind, targets)
  }

  /** A broadcast is always logged once if and only if nothing of its query is outstanding when it
      starts. */
  lemma LoggedOnceIff(s: State, query: string, kind: Kind, targets: seq<nat>)
    requires Distinct(targets)
    ensures AlwaysLoggedOnce(s, query, kind, targets) <==> Quiet(s, query)
  {
    hide Runs, LoggedOnce, Called, Alone;
    var s1 := Apply(s, Start(query, kind, targets));
    if Quiet(s, query) {
      forall ops, z | Runs(s1, ops, z) && Alone(ops, query) && Quiet(z, query)
        ensures LoggedOnce(s, z, query, kind, targets)
      {
        BroadcastLogsEachOnce(s, query, kind, targets, ops, z);
      }
    } else if c: nat :| c < |s.casts| && s.casts[c].query == query && s.casts[c].todo != [] {
      var ops, z := Drain(s1, query);
      NoStartAlone(ops, query);
      BroadcastSpoils(s, query, kind, targets, c, ops, z);
    } else {
      var r: nat :| r < |s.requests| && s.requests[r].query == query && s.requests[r].phase.Queued?;
      var ops, z := TaskSpoils(s, query, kind, targets, r);
    }
  }

  lemma NoStartAlone(ops: seq<Op>, query: string)
    requires NoStart(ops)
    ensures Alone(ops, query)
  {
  }

  /** One such run, from the start: a second broadcast before the first one's task has ended. */
  lemma OutstandingExample()
    ensures var end := Notify(PREPARED, true);
            var cast := Start("q", Prepare, [1]);
            var ops := [cast, Send(0, true), cast, Send(1, true), Finish(0, end), Finish(1, end)];
            exists z :: Runs(State([], [], map[]), ops, z) && Quiet(z, "q") && Senders(Entries(z.log, "q")) == [1, 1]
  {
    hide Called, Runs;
    var end := Notify(PREPARED, true);
    var cast := Start("q", Prepare, [1]);
    var s0 := State([], [], map[]);
    var s1 := Apply(s0, cast);
    assert s1.casts == [Broadcast("q", Prepare, [1])];
    var s2 := Apply(s1, Send(0, true));
    assert s2.requests == [Request("q", 1, Prepare, Queued)] && [1][1..] == [];
    assert s2.casts == [Broadcast("q", Prepare, [])];
    var s3 := Apply(s2, cast);
    assert s3.casts == [Broadcast("q", Prepare, []), Broadcast("q", Prepare, [1])];
    var s4 := Apply(s3, Send(1, true));
    assert s4.requests == [Request("q", 1, Prepare, Queued), Request("q", 1, Prepare, Queued)];
    var s5 := Apply(s4, Finish(0, end));
    var s6 := Apply(s5, Finish(1, end));
    assert Entries(s6.log, "q") == [Note(0, 1, PREPARED), Note(1, 1, PREPARED)];
    RunsTwo(s0, cast, Send(0, true));
    RunsTwo(s2, cast, Send(1, true));
    RunsTwo(s4, Finish(0, end), Finish(1, end));
    RunsConcat(s0, [cast, Send(0, true)], s2, [cast, Send(1, true)], s4);
    RunsConcat(s0, [cast, Send(0, true)] + [cast, Send(1, true)], s4, [Finish(0, end), Finish(1, end)], s6);
    assert [cast, Send(0, true)] + [cast, Send(1, true)] + [Finish(0, end), Finish(1, end)]
        == [cast, Send(0, true), cast, Send(1, true), Finish(0, end), Finish(1, end)];
    assert Senders(Entries(s6.log, "q")) == [1, 1];
  }

  lemma RunsTwo(s: State, a: Op, b: Op)
    requires Enabled(s, a) && Enabled(Apply(s, a), b)
    ensures Runs(s, [a, b], Apply(Apply(s, a), b))
  {
    hide Apply, Enabled;
    RunsOne(s, a);
    RunsOne(Apply(s, a), b);
    RunsConcat(s, [a], Apply(s, a), [b], Apply(Apply(s, a), b));
    assert [a] + [b] == [a, b];
  }
}
