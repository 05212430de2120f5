/** Queries on the cluster: the primary broadcasts requests, the executors run them as tasks and notify
    the primary, which logs the notifications by query.  All of it interleaves. */
module ClusterQueries {
  import opened Sequences

  datatype Kind = Prepare | Execute

  datatype Status = PREPARED | EXECUTED | ERROR

  /** What becomes of a request: the call did not reach the executor, the task is queued there, or it
      has ended, with its notification logged at the primary or not. */
  datatype Phase = Lost | Queued | Ended(logged: bool)

  datatype Request = Request(query: string, executor: nat, kind: Kind, phase: Phase)

  /** A logged notification; `request` is the number of the request whose task sent it. */
  datatype Note = Note(request: nat, sender: nat, status: Status)

  /** A broadcast that is under way, with the executors it has yet to call. */
  datatype Broadcast = Broadcast(query: string, kind: Kind, todo: seq<nat>)

  datatype State = State(requests: seq<Request>, casts: seq<Broadcast>, log: map<string, seq<Note>>)

  /** How a task ends: an exception leaves it, or it notifies the primary and that call succeeds or not. */
  datatype End = Threw | Notify(status: Status, delivered: bool)

  datatype Op =
    | Start(query: string, kind: Kind, executors: seq<nat>)
    | Send(cast: nat, delivered: bool)
    | Finish(request: nat, end: End)
    | Read(query: string)

  function Entries(log: map<string, seq<Note>>, query: string): seq<Note> {
    if query in log then log[query] else []
  }

  /** A preparation always notifies; an execution that fails lets the exception escape and never
      reports an error. */
  predicate Possible(kind: Kind, end: End) {
    match kind
    case Prepare => end.Notify? && end.status != EXECUTED
    case Execute => end.Threw? || end.status == EXECUTED
  }

  /** Broadcasts go over a map of connections, so to each executor once. */
  ghost predicate Enabled(s: State, op: Op) {
    match op
    case Start(_, _, executors) => Distinct(executors)
    case Send(c, _) => c < |s.casts| && s.casts[c].todo != []
    case Finish(r, end) =>
      r < |s.requests| && s.requests[r].phase.Queued? && Possible(s.requests[r].kind, end)
    case Read(_) => true
  }

  /** A broadcast first clears the log of its query. */
  function ApplyStart(s: State, query: string, kind: Kind, executors: seq<nat>): State {
    s.(casts := s.casts + [Broadcast(query, kind, executors)], log := s.log - {query})
  }

  function ApplySend(s: State, c: nat, delivered: bool): State
    requires c < |s.casts| && s.casts[c].todo != []
  {
    var b := s.casts[c];
    s.(requests := s.requests + [Request(b.query, b.todo[0], b.kind, if delivered then Queued else Lost)],
       casts := s.casts[c := b.(todo := b.todo[1..])])
  }

  function ApplyFinish(s: State, r: nat, end: End): State
    requires r < |s.requests|
  {
    var q := s.requests[r];
    var logged := end.Notify? && end.delivered;
    s.(requests := s.requests[r := q.(phase := Ended(logged))],
       log := if logged
              then s.log[q.query := Entries(s.log, q.query) + [Note(r, q.executor, end.status)]]
              else s.log)
  }

  ghost function Apply(s: State, op: Op): State
    requires Enabled(s, op)
  {
    match op
    case Start(q, kind, executors) => ApplyStart(s, q, kind, executors)
    case Send(c, delivered) => ApplySend(s, c, delivered)
    case Finish(r, end) => ApplyFinish(s, r, end)
    case Read(q) => s.(log := s.log[q := Entries(s.log, q)])
  }

  ghost predicate Runs(s: State, ops: seq<Op>, z: State)
    decreases |ops|
  {
    if ops == [] then s == z else Enabled(s, ops[0]) && Runs(Apply(s, ops[0]), ops[1..], z)
  }

  // Every logged notification has its own delivered request.

  predicate Matches(note: Note, requests: seq<Request>, query: string) {
    && note.request < |requests|
    && var r := requests[note.request];
    && r.query == query && r.executor == note.sender && r.phase == Ended(true)
    && (r.kind.Prepare? ==> note.status != EXECUTED) && (r.kind.Execute? ==> note.status == EXECUTED)
  }

  ghost predicate Matched(s: State, query: string) {
    var notes := Entries(s.log, query);
    && (forall i :: 0 <= i < |notes| ==> Matches(notes[i], s.requests, query))
    && (forall i, j :: 0 <= i < j < |notes| ==> notes[i].request != notes[j].request)
  }

  lemma StepMatched(s: State, op: Op, query: string)
    requires Matched(s, query) && Enabled(s, op)
    ensures Matched(Apply(s, op), query)
  {
    var z := Apply(s, op);
    var notes := Entries(s.log, query);
    if op.Send? {
      forall i | 0 <= i < |notes| ensures Matches(notes[i], z.requests, query) {
        assert Matches(notes[i], s.requests, query);
      }
    } else if op.Finish? {
      forall i | 0 <= i < |notes| ensures Matches(notes[i], z.requests, query) && notes[i].request != op.request {
        assert Matches(notes[i], s.requests, query);
      }
    }
  }

  lemma {:induction false} EveryNoteMatched(s: State, ops: seq<Op>, z: State, query: string)
    requires Matched(s, query) && Runs(s, ops, z)
    ensures Matched(z, query)
    decreases |ops|
  {
    if ops != [] {
      hide Matched, Apply, Enabled;
      StepMatched(s, ops[0], query);
      EveryNoteMatched(Apply(s, ops[0]), ops[1..], z, query);
    }
  }

  lemma StepReports(s: State, op: Op, query: string, note: Note)
    requires Enabled(s, op) && note in Entries(Apply(s, op).log, query)
    ensures note in Entries(s.log, query) || op == Finish(note.request, Notify(note.status, true))
  {
  }

  /** What a task reported is what is logged: every entry is older than the run, or a task ended in it with
      exactly that status and the notification got through. */
  lemma {:induction false} EveryNoteReported(s: State, ops: seq<Op>, z: State, query: string, note: Note)
    requires Runs(s, ops, z) && note in Entries(z.log, query)
    ensures note in Entries(s.log, query) || Finish(note.request, Notify(note.status, true)) in ops
    decreases |ops|
  {
    if ops != [] {
      hide Apply, Enabled;
      EveryNoteReported(Apply(s, ops[0]), ops[1..], z, query, note);
      if note in Entries(Apply(s, ops[0]).log, query) {
        StepReports(s, ops[0], query, note);
      }
    }
  }

  // A broadcast that starts with nothing outstanding.

  /** No task and no broadcast of the query is under way. */
  ghost predicate Quiet(s: State, query: string) {
    && (forall r :: 0 <= r < |s.requests| ==> s.requests[r].query == query ==> !s.requests[r].phase.Queued?)
    && (forall c :: 0 <= c < |s.casts| ==> s.casts[c].query == query ==> s.casts[c].todo == [])
  }

  /** The executors that were called for a query, in order. */
  function Called(requests: seq<Request>, query: string): seq<nat> {
    if requests == [] then []
    else
      var last := requests[|requests| - 1];
      Called(requests[..|requests| - 1], query) + if last.query == query then [last.executor] else []
  }

  lemma CalledNext(requests: seq<Request>, r: Request, query: string)
    ensures Called(requests + [r], query)
         == Called(requests, query) + if r.query == query then [r.executor] else []
  {
    assert (requests + [r])[..|requests|] == requests;
  }

  lemma {:induction false} CalledUpdate(requests: seq<Request>, i: nat, phase: Phase, query: string)
    requires i < |requests|
    ensures Called(requests[i := requests[i].(phase := phase)], query) == Called(requests, query)
    decreases |requests|
  {
    var n := |requests| - 1;
    var changed := requests[i := requests[i].(phase := phase)];
    if i < n {
      CalledUpdate(requests[..n], i, phase, query);
      assert changed[..n] == requests[..n][i := requests[i].(phase := phase)];
    } else {
      assert changed[..n] == requests[..n];
    }
  }

  lemma {:induction false} CalledHas(requests: seq<Request>, query: string, i: nat)
    requires i < |requests| && requests[i].query == query
    ensures requests[i].executor in Called(requests, query)
    decreases |requests|
  {
    if i < |requests| - 1 {
      CalledHas(requests[..|requests| - 1], query, i);
    }
  }

  lemma {:induction false} CalledOnce(requests: seq<Request>, query: string, i: nat, j: nat)
    requires i < j < |requests| && requests[i].query == requests[j].query == query
    requires Distinct(Called(requests, query))
    ensures requests[i].executor != requests[j].executor
    decreases |requests|
  {
    var n := |requests| - 1;
    var front := requests[..n];
    var all, some := Called(requests, query), Called(front, query);
    assert forall k :: 0 <= k < |some| ==> all[k] == some[k];
    if j < n {
      CalledOnce(front, query, i, j);
    } else {
      CalledHas(front, query, i);
      assert all[|some|] == requests[j].executor;
    }
  }

  /** What holds while a broadcast of `query` to `targets`, started at `base` requests as number `c`, is
      the only one. */
  ghost predicate Calls(s: State, query: string, kind: Kind, base: nat, c: nat, targets: seq<nat>) {
    && base <= |s.requests| && c < |s.casts|
    && s.casts[c].query == query && s.casts[c].kind == kind
    && Called(s.requests[base..], query) + s.casts[c].todo == targets
    && (forall d :: 0 <= d < |s.casts| && d != c ==> s.casts[d].query == query ==> s.casts[d].todo == [])
  }

  ghost predicate Tasks(s: State, query: string, kind: Kind, base: nat) {
    && base <= |s.requests|
    && (forall r :: 0 <= r < base ==> s.requests[r].query == query ==> !s.requests[r].phase.Queued?)
    && (forall r :: base <= r < |s.requests| ==> s.requests[r].query == query ==> s.requests[r].kind == kind)
  }

  /** The log holds notifications of the new requests only, and one for each that got through. */
  ghost predicate Logged(s: State, query: string, base: nat) {
    var notes := Entries(s.log, query);
    && (forall i :: 0 <= i < |notes| ==> notes[i].request >= base)
    && (forall r :: base <= r < |s.requests| ==> s.requests[r].query == query ==>
          s.requests[r].phase == Ended(true) ==> HasNote(notes, r))
  }

  predicate HasNote(notes: seq<Note>, r: nat) {
    exists i :: 0 <= i < |notes| && notes[i].request == r
  }

  lemma SendCalls(s: State, d: nat, delivered: bool, query: string, kind: Kind, base: nat, c: nat,
                  targets: seq<nat>)
    requires Calls(s, query, kind, base, c, targets) && d < |s.casts| && s.casts[d].todo != []
    ensures Calls(ApplySend(s, d, delivered), query, kind, base, c, targets)
  {
    hide Called;
    var z := ApplySend(s, d, delivered);
    var b := s.casts[d];
    var r := z.requests[|s.requests|];
    assert z.requests[base..] == s.requests[base..] + [r];
    CalledNext(s.requests[base..], r, query);
    if d == c {
      assert b.todo == [b.todo[0]] + b.todo[1..];
    }
  }

  lemma FinishCalls(s: State, r: nat, end: End, query: string, kind: Kind, base: nat, c: nat,
                    targets: seq<nat>)
    requires Calls(s, query, kind, base, c, targets) && r < |s.requests|
    ensures Calls(ApplyFinish(s, r, end), query, kind, base, c, targets)
  {
    hide Called;
    var z := ApplyFinish(s, r, end);
    var tail, phase := s.requests[base..], z.requests[r].phase;
    if r >= base {
      CalledUpdate(tail, r - base, phase, query);
      assert z.requests[base..] == tail[r - base := tail[r - base].(phase := phase)];
    } else {
      assert z.requests[base..] == tail;
    }
  }

  lemma StepCalls(s: State, op: Op, query: string, kind: Kind, base: nat, c: nat, targets: seq<nat>)
    requires Calls(s, query, kind, base, c, targets) && Enabled(s, op)
    requires op.Start? ==> op.query != query
    ensures Calls(Apply(s, op), query, kind, base, c, targets)
  {
    hide Called, ApplySend, ApplyFinish;
    if op.Send? {
      SendCalls(s, op.cast, op.delivered, query, kind, base, c, targets);
    } else if op.Finish? {
      FinishCalls(s, op.request, op.end, query, kind, base, c, targets);
    }
  }

  lemma StepTasks(s: State, op: Op, query: string, kind: Kind, base: nat, c: nat, targets: seq<nat>)
    requires Calls(s, query, kind, base, c, targets) && Tasks(s, query, kind, base) && Enabled(s, op)
    requires op.Start? ==> op.query != query
    ensures Tasks(Apply(s, op), query, kind, base)
  {
    hide Called;
  }

  lemma StepLogged(s: State, op: Op, query: string, kind: Kind, base: nat)
    requires Tasks(s, query, kind, base) && Logged(s, query, base) && Enabled(s, op)
    requires op.Start? ==> op.query != query
    ensures Logged(Apply(s, op), query, base)
  {
    var z := Apply(s, op);
    if op.Finish? {
      var notes, more := Entries(s.log, query), Entries(z.log, query);
      forall r | base <= r < |z.requests| && z.requests[r].query == query && z.requests[r].phase == Ended(true)
        ensures HasNote(more, r)
      {
        if r == op.request {
          assert more[|notes|].request == r;
        } else {
          assert HasNote(notes, r);
          var i :| 0 <= i < |notes| && notes[i].request == r;
          assert more[i] == notes[i];
        }
      }
    }
  }

  /** No other broadcast of the query starts. */
  ghost predicate Alone(ops: seq<Op>, query: string) {
    forall i :: 0 <= i < |ops| ==> ops[i].Start? ==> ops[i].query != query
  }

  lemma {:induction false} RunRound(s: State, ops: seq<Op>, z: State, query: string, kind: Kind, base: nat,
                                    c: nat, targets: seq<nat>)
    requires Calls(s, query, kind, base, c, targets) && Tasks(s, query, kind, base) && Logged(s, query, base)
    requires Runs(s, ops, z) && Alone(ops, query)
    ensures Calls(z, query, kind, base, c, targets) && Tasks(z, query, kind, base) && Logged(z, query, base)
    decreases |ops|
  {
    if ops != [] {
      assert ops[0].Start? ==> ops[0].query != query;
      assert Alone(ops[1..], query);
      hide Calls, Tasks, Logged, Apply, Enabled, Alone;
      StepCalls(s, ops[0], query, kind, base, c, targets);
      StepTasks(s, ops[0], query, kind, base, c, targets);
      StepLogged(s, ops[0], query, kind, base);
      RunRound(Apply(s, ops[0]), ops[1..], z, query, kind, base, c, targets);
    }
  }

  function Senders(notes: seq<Note>): (ids: seq<nat>)
    ensures |ids| == |notes| && forall i :: 0 <= i < |notes| ==> ids[i] == notes[i].sender
  {
    seq(|notes|, i requires 0 <= i < |notes| => notes[i].sender)
  }

  lemma SendersDistinct(s: State, query: string, kind: Kind, base: nat, c: nat, targets: seq<nat>)
    requires Calls(s, query, kind, base, c, targets) && Distinct(targets)
    requires Logged(s, query, base) && Matched(s, query)
    ensures Distinct(Senders(Entries(s.log, query)))
  {
    var notes := Entries(s.log, query);
    var sent := s.requests[base..];
    assert Distinct(Called(sent, query)) by {
      forall i, j | 0 <= i < j < |Called(sent, query)| ensures Called(sent, query)[i] != Called(sent, query)[j] {
        assert targets[i] == Called(sent, query)[i] && targets[j] == Called(sent, query)[j];
      }
    }
    forall i, j | 0 <= i < j < |notes| ensures notes[i].sender != notes[j].sender {
      var a, b := notes[i].request - base, notes[j].request - base;
      assert Matches(notes[i], s.requests, query) && Matches(notes[j], s.requests, query);
      if a < b {
        CalledOnce(sent, query, a, b);
      } else {
        CalledOnce(sent, query, b, a);
      }
    }
  }

  lemma SenderDone(s: State, query: string, kind: Kind, base: nat, i: nat)
    requires Tasks(s, query, kind, base) && Logged(s, query, base) && Matched(s, query)
    requires i < |Entries(s.log, query)|
    ensures Request(query, Entries(s.log, query)[i].sender, kind, Ended(true)) in s.requests[base..]
  {
    hide Entries;
    var note := Entries(s.log, query)[i];
    assert Matches(note, s.requests, query);
    assert s.requests[base..][note.request - base] == s.requests[note.request];
  }

  lemma DoneSends(s: State, query: string, base: nat, r: nat)
    requires Logged(s, query, base) && Matched(s, query)
    requires base <= r < |s.requests| && s.requests[r].query == query && s.requests[r].phase == Ended(true)
    ensures s.requests[r].executor in Senders(Entries(s.log, query))
  {
    hide Entries;
    var notes := Entries(s.log, query);
    assert HasNote(notes, r);
    var i :| 0 <= i < |notes| && notes[i].request == r;
    assert Matches(notes[i], s.requests, query);
    assert Senders(notes)[i] == s.requests[r].executor;
  }

  lemma SendersAre(s: State, query: string, kind: Kind, base: nat, e: nat)
    requires Tasks(s, query, kind, base) && Logged(s, query, base) && Matched(s, query)
    ensures e in Senders(Entries(s.log, query)) <==> Request(query, e, kind, Ended(true)) in s.requests[base..]
  {
    var notes := Entries(s.log, query);
    var done := Request(query, e, kind, Ended(true));
    if e in Senders(notes) {
      var i :| 0 <= i < |notes| && Senders(notes)[i] == e;
      SenderDone(s, query, kind, base, i);
    }
    hide Logged, Matched, Entries;
    if done in s.requests[base..] {
      var k :| 0 <= k < |s.requests[base..]| && s.requests[base..][k] == done;
      assert s.requests[base + k] == done;
      DoneSends(s, query, base, base + k);
    }
  }

  /** Between `s` and `z` every target was called once, and the log holds exactly one notification from
      each executor whose request and whose notification got through, and no other. */
  ghost predicate LoggedOnce(s: State, z: State, query: string, kind: Kind, targets: seq<nat>) {
    var base, senders := |s.requests|, Senders(Entries(z.log, query));
    && base <= |z.requests|
    && Called(z.requests[base..], query) == targets
    && Distinct(senders)
    && forall e :: e in senders <==> Request(query, e, kind, Ended(true)) in z.requests[base..]
  }

  /** A broadcast that starts while nothing of its query is outstanding, once everything has come to
      rest, is logged once. */
  lemma BroadcastLogsEachOnce(s: State, query: string, kind: Kind, targets: seq<nat>, ops: seq<Op>, z: State)
    requires Quiet(s, query) && Distinct(targets)
    requires Runs(Apply(s, Start(query, kind, targets)), ops, z) && Alone(ops, query) && Quiet(z, query)
    ensures LoggedOnce(s, z, query, kind, targets)
  {
    var s1 := Apply(s, Start(query, kind, targets));
    var base, c := |s.requests|, |s.casts|;
    Begin(s, query, kind, targets);
    RunRound(s1, ops, z, query, kind, base, c, targets);
    EveryNoteMatched(s1, ops, z, query);
    SendersDistinct(z, query, kind, base, c, targets);
    forall e ensures e in Senders(Entries(z.log, query)) <==>
                     Request(query, e, kind, Ended(true)) in z.requests[base..]
    {
      SendersAre(z, query, kind, base, e);
    }
  }

  lemma Begin(s: State, query: string, kind: Kind, targets: seq<nat>)
    requires Quiet(s, query) && Distinct(targets)
    ensures var s1 := Apply(s, Start(query, kind, targets));
            && Calls(s1, query, kind, |s.requests|, |s.casts|, targets)
            && Tasks(s1, query, kind, |s.requests|) && Logged(s1, query, |s.requests|)
            && Matched(s1, query)
  {
    assert Called(s.requests[|s.requests|..], query) == [];
  }

  lemma {:induction false} RunsThen(s: State, ops: seq<Op>, y: State, op: Op)
    requires Runs(s, ops, y) && Enabled(y, op)
    ensures Runs(s, ops + [op], Apply(y, op))
    decreases |ops|
  {
    if ops != [] {
      RunsThen(Apply(s, ops[0]), ops[1..], y, op);
      assert (ops + [op])[1..] == ops[1..] + [op];
    } else {
      assert (ops + [op])[1..] == [];
    }
  }

  /** The primary: its log of notifications, and the state of the protocol that it is part of. */
  class Primary {
    var log: map<string, seq<Note>>
    ghost var state: State

    ghost predicate Valid()
      reads this
    {
      log == state.log
    }

    constructor ()
      ensures Valid() && state == State([], [], map[])
    {
      log := map[];
      state := State([], [], map[]);
    }

    /** The loop of a broadcast, here without steps of others in between: it is a run of the protocol
        that clears the query's log and calls every connected executor once, in order. */
    method BroadcastQuery(query: string, kind: Kind, executors: seq<nat>, delivered: nat -> bool)
      returns (ghost ops: seq<Op>)
      requires Valid() && Distinct(executors)
      modifies this
      ensures Valid() && Runs(old(state), ops, state)
      ensures ops != [] && ops[0] == Start(query, kind, executors) && Alone(ops[1..], query)
      ensures |state.requests| == |old(state.requests)| + |executors|
      ensures forall i :: 0 <= i < |executors| ==>
                state.requests[|old(state.requests)| + i]
                == Request(query, executors[i], kind, if delivered(i) then Queued else Lost)
      ensures state.casts == old(state.casts) + [Broadcast(query, kind, [])] && Entries(log, query) == []
    {
      ghost var s, c := state, |state.casts|;
      log := log - {query};
      state := ApplyStart(state, query, kind, executors);
      ops := [Start(query, kind, executors)];
      assert Runs(state, [], state) && ops[1..] == [];
      for i := 0 to |executors|
        invariant Valid() && Runs(s, ops, state)
        invariant ops != [] && ops[0] == Start(query, kind, executors) && Alone(ops[1..], query)
        invariant |state.requests| == |s.requests| + i
        invariant forall k :: 0 <= k < i ==>
                    state.requests[|s.requests| + k]
                    == Request(query, executors[k], kind, if delivered(k) then Queued else Lost)
        invariant state.casts == s.casts + [Broadcast(query, kind, executors[i..])] && Entries(log, query) == []
      {
        hide Runs;
        RunsThen(s, ops, state, Send(c, delivered(i)));
        ops := ops + [Send(c, delivered(i))];
        state := ApplySend(state, c, delivered(i));
      }
      assert executors[|executors|..] == [];
    }

    /** A notification arrives from the task of request `note.request`. */
    method UpdateQueryStatus(query: string, note: Note)
      requires Valid() && note.request < |state.requests|
      requires Enabled(state, Finish(note.request, Notify(note.status, true)))
      requires query == state.requests[note.request].query && note.sender == state.requests[note.request].executor
      modifies this
      ensures Valid() && state == Apply(old(state), Finish(note.request, Notify(note.status, true)))
    {
      if query in log {
        log := log[query := log[query] + [note]];
      } else {
        assert [] + [note] == [note];
        log := log[query := [note]];
      }
      state := ApplyFinish(state, note.request, Notify(note.status, true));
    }

    /** Reading the log of an unknown query makes an empty one. */
    method GetQueryStatus(query: string) returns (notes: seq<Note>)
      requires Valid()
      modifies this
      ensures Valid() && state == Apply(old(state), Read(query)) && notes == Entries(old(log), query)
      ensures forall q :: Entries(log, q) == Entries(old(log), q)
    {
      if query !in log {
        log := log[query := []];
      }
      notes := log[query];
      state := state.(log := log);
    }
  }
}
