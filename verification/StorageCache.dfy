/** The storage manager's file cache together with the registry of load policies, as a state machine.
    Loading is asynchronous: a request starts a task on the thread pool, the cache and the readers share
    the task's future, and the policy is looked up when the task runs. */
module StorageCache {
  type Loader = nat

  /** Where a file is asked to be loaded: through the policy registry, or to a place named outright. */
  datatype Location = FromRegistry | Place(place: nat)

  datatype Registry = Registry(fallback: Loader, custom: map<string, Loader>) {
    function At(name: string): Loader {
      if name in custom then custom[name] else fallback
    }
  }

  /** What made a record. */
  datatype Maker = ByLoader(loader: Loader) | ByPlace(place: nat)

  /** A loaded file.  `served` is the version of the registry in force when it was loaded. */
  datatype Record = Record(maker: Maker, served: nat, regions: set<nat>)

  datatype Phase = Pending | Done(record: Record)

  /** A load task.  `asked` is the version of the registry in force when it was started. */
  datatype Task = Task(name: string, loc: Location, asked: nat, phase: Phase)

  /** `history` holds every version of the registry, the current one last; `files` and `readers` name
      the tasks whose futures they hold. */
  datatype State = State(history: seq<Registry>, tasks: seq<Task>, files: map<string, nat>,
                         readers: multiset<nat>, registered: set<nat>)

  datatype Op =
    | Load(name: string, loc: Location)
    | GetOrLoad(name: string, loc: Location)
    | Get(name: string)
    | Finish(task: nat, regions: set<nat>)
    | EndRead(task: nat)
    | Unload(name: string)
    | UnloadAll
    | SetLoader(name: string, loader: Loader, force: bool)
    | SetDefault(loader: Loader, force: bool)
    | DropCustom

  function Init(fallback: Loader): State {
    State([Registry(fallback, map[])], [], map[], multiset{}, {})
  }

  function Current(s: State): Registry
    requires s.history != []
  {
    s.history[|s.history| - 1]
  }

  function Held(s: State): set<nat> {
    s.files.Values + (set t | t in s.readers)
  }

  function RegionOf(task: Task): set<nat> {
    if task.phase.Done? then task.phase.record.regions else {}
  }

  /** The regions of those of the tasks `ids` that have loaded their file. */
  function RegionsOf(tasks: seq<Task>, ids: set<nat>): set<nat> {
    set t, r | t in ids && t < |tasks| && r in RegionOf(tasks[t]) :: r
  }

  /** Destroys the record of a task whose future somebody let go of, if that was the last holder. */
  function Release(s: State, t: nat): State {
    if t in Held(s) then s else s.(registered := s.registered - if t < |s.tasks| then RegionOf(s.tasks[t]) else {})
  }

  function ApplyLoad(s: State, name: string, loc: Location): State
    requires s.history != []
  {
    var t := |s.tasks|;
    var s1 := s.(tasks := s.tasks + [Task(name, loc, |s.history| - 1, Pending)]);
    if name in s.files then s1 else s1.(files := s.files[name := t])
  }

  function ApplyGet(s: State, name: string): State
    requires name in s.files
  {
    var t := s.files[name];
    s.(readers := s.readers[t := s.readers[t] + 1])
  }

  function MakerOf(registry: Registry, task: Task): Maker {
    match task.loc
    case FromRegistry => ByLoader(registry.At(task.name))
    case Place(p) => ByPlace(p)
  }

  function ApplyFinish(s: State, t: nat, regions: set<nat>): State
    requires s.history != [] && t < |s.tasks|
  {
    var record := Record(MakerOf(Current(s), s.tasks[t]), |s.history| - 1, regions);
    Release(s.(tasks := s.tasks[t := s.tasks[t].(phase := Done(record))],
               registered := s.registered + regions), t)
  }

  function ApplyEndRead(s: State, t: nat): State
    requires t in s.readers
  {
    Release(s.(readers := s.readers[t := s.readers[t] - 1]), t)
  }

  function ApplyUnload(s: State, name: string): State {
    if name !in s.files then s
    else Release(s.(files := s.files - {name}), s.files[name])
  }

  function ApplyUnloadAll(s: State): State {
    var gone := s.files.Values - (set t | t in s.readers);
    s.(files := map[], registered := s.registered - RegionsOf(s.tasks, gone))
  }

  function Publish(s: State, r: Registry): State {
    s.(history := s.history + [r])
  }

  /** What the caller of an operation has to see to: files that are fetched are in the cache, tasks end
      once and readers leave after the file is there, and a new record's regions are not in use. */
  predicate Enabled(s: State, op: Op) {
    match op
    case Get(name) => name in s.files
    case Finish(t, regions) => t < |s.tasks| && s.tasks[t].phase.Pending? && regions !! s.registered
    case EndRead(t) => t in s.readers && t < |s.tasks| && s.tasks[t].phase.Done?
    case _ => true
  }

  function Apply(s: State, op: Op): State
    requires s.history != [] && Enabled(s, op)
  {
    match op
    case Load(name, loc) => ApplyLoad(s, name, loc)
    case GetOrLoad(name, loc) =>
      if name in s.files then ApplyGet(s, name) else ApplyGet(ApplyLoad(s, name, loc), name)
    case Get(name) => ApplyGet(s, name)
    case Finish(t, regions) => ApplyFinish(s, t, regions)
    case EndRead(t) => ApplyEndRead(s, t)
    case Unload(name) => ApplyUnload(s, name)
    case UnloadAll => ApplyUnloadAll(s)
    case SetLoader(name, ld, force) =>
      var s1 := if force then ApplyUnload(s, name) else s;
      Publish(s1, Current(s).(custom := Current(s).custom[name := ld]))
    case SetDefault(ld, force) =>
      var s1 := if force then ApplyUnloadAll(s) else s;
      Publish(s1, Current(s).(fallback := ld))
    case DropCustom => Publish(s, Current(s).(custom := map[]))
  }

  // What every run keeps.

  /** A finished task was served by the policy that was in force at a moment between its start and now. */
  predicate Served(history: seq<Registry>, task: Task) {
    && task.asked < |history|
    && (task.phase.Done? ==>
          var r := task.phase.record;
          && task.asked <= r.served < |history|
          && r.maker == MakerOf(history[r.served], task))
  }

  ghost predicate Wired(s: State) {
    && s.history != []
    && (forall name :: name in s.files ==>
          s.files[name] < |s.tasks| && s.tasks[s.files[name]].name == name)
    && (forall t :: t in s.readers ==> t < |s.tasks|)
    && (forall t :: 0 <= t < |s.tasks| ==> Served(s.history, s.tasks[t]))
  }

  ghost predicate Disjoint(s: State) {
    forall t, u :: t in Held(s) && u in Held(s) && t < |s.tasks| && u < |s.tasks| && t != u ==>
      RegionOf(s.tasks[t]) !! RegionOf(s.tasks[u])
  }

  /** The registered regions are exactly those of the live records. */
  ghost predicate Registered(s: State) {
    s.registered == RegionsOf(s.tasks, Held(s))
  }

  ghost predicate Inv(s: State) {
    Wired(s) && Disjoint(s) && Registered(s)
  }

  // The operations keep it, one at a time.

  lemma RegionsPlus(tasks: seq<Task>, ids: set<nat>, t: nat)
    requires t < |tasks|
    ensures RegionsOf(tasks, ids + {t}) == RegionsOf(tasks, ids) + RegionOf(tasks[t])
  {
  }

  lemma RegionsApart(tasks: seq<Task>, ids: set<nat>, t: nat)
    requires t < |tasks|
    requires forall u :: u in ids && u < |tasks| ==> RegionOf(tasks[u]) !! RegionOf(tasks[t])
    ensures RegionsOf(tasks, ids) !! RegionOf(tasks[t])
  {
  }

  lemma RegionsSame(a: seq<Task>, b: seq<Task>, ids: set<nat>)
    requires forall t :: t in ids ==> t < |a| && t < |b| && RegionOf(a[t]) == RegionOf(b[t])
    ensures RegionsOf(a, ids) == RegionsOf(b, ids)
  {
  }

  lemma ReleaseLast(tasks: seq<Task>, held: set<nat>, t: nat)
    requires t < |tasks| && t !in held
    requires forall u :: u in held && u < |tasks| ==> RegionOf(tasks[u]) !! RegionOf(tasks[t])
    ensures RegionsOf(tasks, held + {t}) - RegionOf(tasks[t]) == RegionsOf(tasks, held)
  {
    hide RegionsOf;
    RegionsPlus(tasks, held, t);
    RegionsApart(tasks, held, t);
  }

  lemma HeldSame(s: State, z: State)
    requires s.files == z.files && s.readers == z.readers
    ensures Held(s) == Held(z)
  {
  }

  /** Letting go of one holder keeps the books balanced. */
  lemma ReleaseKeeps(s: State, t: nat, s0: State)
    requires Inv(s0) && Wired(s) && s.tasks == s0.tasks && s.registered == s0.registered
    requires t < |s.tasks| && t in Held(s0) && Held(s) <= Held(s0) <= Held(s) + {t}
    ensures Inv(Release(s, t))
  {
    hide RegionsOf, RegionOf, Served, Held;
    var s1 := Release(s, t);
    HeldSame(s, s1);
    if t in Held(s) {
      assert Held(s) == Held(s0);
    } else {
      assert Held(s0) == Held(s) + {t};
      ReleaseLast(s.tasks, Held(s), t);
    }
  }

  lemma HeldWithout(s: State, name: string)
    requires name in s.files
    ensures var s1 := s.(files := s.files - {name});
            Held(s1) <= Held(s) <= Held(s1) + {s.files[name]}
  {
    var s1 := s.(files := s.files - {name});
    forall t | t in Held(s) ensures t in Held(s1) + {s.files[name]} {
      if t in s.files.Values {
        var n :| n in s.files && s.files[n] == t;
        assert n != name ==> n in s1.files && s1.files[n] == t;
      }
    }
    forall t | t in Held(s1) ensures t in Held(s) {
      if t in s1.files.Values {
        var n :| n in s1.files && s1.files[n] == t;
        assert n in s.files;
      }
    }
  }

  lemma UnloadKeeps(s: State, name: string)
    requires Inv(s)
    ensures Inv(ApplyUnload(s, name))
  {
    if name in s.files {
      HeldWithout(s, name);
      ReleaseKeeps(s.(files := s.files - {name}), s.files[name], s);
    }
  }

  lemma EndReadKeeps(s: State, t: nat)
    requires Inv(s) && t in s.readers
    ensures Inv(ApplyEndRead(s, t))
  {
    ReleaseKeeps(s.(readers := s.readers[t := s.readers[t] - 1]), t, s);
  }

  lemma RegionsSplit(s: State, kept: set<nat>, gone: set<nat>)
    requires Disjoint(s) && Registered(s) && Held(s) == kept + gone && kept !! gone
    ensures s.registered - RegionsOf(s.tasks, gone) == RegionsOf(s.tasks, kept)
  {
    assert RegionsOf(s.tasks, kept + gone) == RegionsOf(s.tasks, kept) + RegionsOf(s.tasks, gone);
    forall t | t in kept && t < |s.tasks| ensures RegionsOf(s.tasks, gone) !! RegionOf(s.tasks[t]) {
      RegionsApart(s.tasks, gone, t);
    }
  }

  lemma UnloadAllKeeps(s: State)
    requires Inv(s)
    ensures Inv(ApplyUnloadAll(s))
  {
    var kept := set t | t in s.readers;
    var gone := s.files.Values - kept;
    assert Held(s) == kept + gone;
    RegionsSplit(s, kept, gone);
    var s1 := ApplyUnloadAll(s);
    assert Held(s1) == kept;
  }

  lemma HeldInTasks(s: State)
    requires Wired(s)
    ensures forall t :: t in Held(s) ==> t < |s.tasks|
  {
    forall t | t in s.files.Values ensures t < |s.tasks| {
      var n :| n in s.files && s.files[n] == t;
    }
  }

  lemma ValuesPlus(files: map<string, nat>, name: string, t: nat)
    requires name !in files
    ensures files[name := t].Values == files.Values + {t}
  {
    var more := files[name := t];
    assert name in more && more[name] == t;
    forall u | u in files.Values ensures u in more.Values {
      var n :| n in files && files[n] == u;
      assert n in more && more[n] == u;
    }
  }

  lemma LoadWired(s: State, name: string, loc: Location)
    requires Wired(s)
    ensures Wired(ApplyLoad(s, name, loc))
  {
    var s1 := ApplyLoad(s, name, loc);
    forall t | 0 <= t < |s1.tasks| ensures Served(s1.history, s1.tasks[t]) {
      if t < |s.tasks| {
        assert s1.tasks[t] == s.tasks[t];
      }
    }
  }

  lemma LoadKeeps(s: State, name: string, loc: Location)
    requires Inv(s)
    ensures Inv(ApplyLoad(s, name, loc))
  {
    hide Served;
    var s1 := ApplyLoad(s, name, loc);
    LoadWired(s, name, loc);
    HeldInTasks(s);
    RegionsSame(s.tasks, s1.tasks, Held(s));
    if name in s.files {
      assert Held(s1) == Held(s);
    } else {
      ValuesPlus(s.files, name, |s.tasks|);
      assert Held(s1) == Held(s) + {|s.tasks|};
      RegionsPlus(s1.tasks, Held(s), |s.tasks|);
    }
  }

  lemma GetKeeps(s: State, name: string)
    requires Inv(s) && name in s.files
    ensures Inv(ApplyGet(s, name))
  {
    assert Held(ApplyGet(s, name)) == Held(s);
  }

  lemma PublishKeeps(s: State, r: Registry)
    requires Inv(s)
    ensures Inv(Publish(s, r))
  {
    assert Held(Publish(s, r)) == Held(s);
  }

  lemma FinishWired(s: State, t: nat, regions: set<nat>)
    requires Wired(s) && t < |s.tasks|
    ensures Wired(ApplyFinish(s, t, regions))
  {
    hide RegionOf, Held;
    var s1 := ApplyFinish(s, t, regions);
    forall u | 0 <= u < |s1.tasks| ensures Served(s1.history, s1.tasks[u]) {
      assert Served(s.history, s.tasks[u]);
    }
  }

  lemma FinishKeeps(s: State, t: nat, regions: set<nat>)
    requires Inv(s) && Enabled(s, Finish(t, regions))
    ensures Inv(ApplyFinish(s, t, regions))
  {
    hide Served, RegionsOf;
    var s1 := ApplyFinish(s, t, regions);
    FinishWired(s, t, regions);
    HeldInTasks(s);
    assert Held(s1) == Held(s);
    var others := Held(s) - {t};
    RegionsSame(s.tasks, s1.tasks, others);
    RegionsPlus(s.tasks, others, t);
    RegionsPlus(s1.tasks, others, t);
    assert Held(s) == others || Held(s) == others + {t};
    assert s.registered == RegionsOf(s.tasks, others);
    forall u | u in others ensures RegionOf(s.tasks[u]) <= s.registered {
      RegionsPlus(s.tasks, others, u);
      assert others == others + {u};
    }
  }

  lemma ApplyKeeps(s: State, op: Op)
    requires Inv(s) && Enabled(s, op)
    ensures Inv(Apply(s, op))
  {
    hide Registered, Disjoint, ApplyUnload, ApplyUnloadAll, ApplyFinish, ApplyEndRead, Publish;
    match op
    case Load(name, loc) => LoadKeeps(s, name, loc);
    case GetOrLoad(name, loc) =>
      if name !in s.files {
        LoadKeeps(s, name, loc);
        GetKeeps(ApplyLoad(s, name, loc), name);
      } else {
        GetKeeps(s, name);
      }
    case Get(name) => GetKeeps(s, name);
    case Finish(t, regions) => FinishKeeps(s, t, regions);
    case EndRead(t) => EndReadKeeps(s, t);
    case Unload(name) => UnloadKeeps(s, name);
    case UnloadAll => UnloadAllKeeps(s);
    case SetLoader(name, ld, force) =>
      UnloadKeeps(s, name);
      PublishKeeps(if force then ApplyUnload(s, name) else s,
                   Current(s).(custom := Current(s).custom[name := ld]));
    case SetDefault(ld, force) =>
      UnloadAllKeeps(s);
      PublishKeeps(if force then ApplyUnloadAll(s) else s, Current(s).(fallback := ld));
    case DropCustom => PublishKeeps(s, Current(s).(custom := map[]));
  }

  /** `s` runs through `ops` to `z`. */
  ghost predicate Runs(s: State, ops: seq<Op>, z: State)
    decreases |ops|
  {
    if ops == [] then s == z
    else s.history != [] && Enabled(s, ops[0]) && Runs(Apply(s, ops[0]), ops[1..], z)
  }

  lemma InitInv(fallback: Loader)
    ensures Inv(Init(fallback))
  {
  }

  /** In every run the registered regions are those of the live records, and every cached file was
      loaded by the policy in force when it was loaded. */
  lemma {:induction false} EveryRun(s: State, ops: seq<Op>, z: State)
    requires Inv(s) && Runs(s, ops, z)
    ensures Inv(z)
    decreases |ops|
  {
    if ops != [] {
      ApplyKeeps(s, ops[0]);
      EveryRun(Apply(s, ops[0]), ops[1..], z);
    }
  }

  /** In particular from the start. */
  lemma EveryReachable(fallback: Loader, ops: seq<Op>, z: State)
    requires Runs(Init(fallback), ops, z)
    ensures Inv(z)
  {
    InitInv(fallback);
    EveryRun(Init(fallback), ops, z);
  }

  // Loads whose result nobody gets.

  /** A load keeps its task's future exactly if the file is not cached. */
  lemma LoadKeptIff(s: State, name: string, loc: Location)
    requires Inv(s)
    ensures |s.tasks| in Held(ApplyLoad(s, name, loc)) <==> name !in s.files
  {
    HeldInTasks(s);
    if name in s.files {
      HeldSame(s, ApplyLoad(s, name, loc));
    } else {
      ValuesPlus(s.files, name, |s.tasks|);
    }
  }

  lemma StepUnheld(s: State, op: Op, t: nat)
    requires Inv(s) && Enabled(s, op) && t < |s.tasks| && t !in Held(s)
    ensures t < |Apply(s, op).tasks| && t !in Held(Apply(s, op))
  {
    hide Registered, Disjoint, RegionsOf, RegionOf, Served;
    var z := Apply(s, op);
    forall n | n in z.files ensures z.files[n] != t {
      if n in s.files && z.files[n] == s.files[n] {
        assert s.files[n] in s.files.Values;
      }
    }
    forall u | u in z.readers ensures u != t {
      if u !in s.readers {
        assert u in z.files.Values;
      }
    }
  }

  /** What nobody holds nobody will ever get: the result of such a load is thrown away in every run. */
  lemma {:induction false} UnheldForever(s: State, ops: seq<Op>, z: State, t: nat)
    requires Inv(s) && Runs(s, ops, z) && t < |s.tasks| && t !in Held(s)
    ensures t !in Held(z)
    decreases |ops|
  {
    if ops != [] {
      hide Apply, Inv, Held;
      StepUnheld(s, ops[0], t);
      ApplyKeeps(s, ops[0]);
      UnheldForever(Apply(s, ops[0]), ops[1..], z, t);
    }
  }

  // Changes of policy.

  /** The change discards the cached copy of `name`. */
  predicate Forces(op: Op, name: string) {
    match op
    case SetLoader(n, _, force) => force && n == name
    case SetDefault(_, force) => force
    case _ => false
  }

  /** The last policy given to the file itself, with no dropping of custom policies since. */
  ghost predicate CustomAt(ops: seq<Op>, name: string, k: nat) {
    && k < |ops| && ops[k].SetLoader? && ops[k].name == name
    && forall i :: k < i < |ops| ==> !ops[i].DropCustom? && !(ops[i].SetLoader? && ops[i].name == name)
  }

  /** The last default policy. */
  ghost predicate DefaultAt(ops: seq<Op>, k: nat) {
    k < |ops| && ops[k].SetDefault? && forall i :: k < i < |ops| ==> !ops[i].SetDefault?
  }

  /** The policy of a file after the operations: its own, or the default, or the one from the start. */
  ghost predicate InForce(fallback: Loader, ops: seq<Op>, name: string, ld: Loader) {
    && (forall k: nat :: CustomAt(ops, name, k) ==> ops[k].loader == ld)
    && ((forall k: nat :: !CustomAt(ops, name, k)) ==>
          && (forall k: nat :: DefaultAt(ops, k) ==> ops[k].loader == ld)
          && ((forall k: nat :: !DefaultAt(ops, k)) ==> ld == fallback))
  }

  lemma CustomNext(ops: seq<Op>, op: Op, name: string, k: nat)
    ensures CustomAt(ops + [op], name, k) <==>
              if op.SetLoader? && op.name == name then k == |ops| else !op.DropCustom? && CustomAt(ops, name, k)
  {
    var more := ops + [op];
    assert forall i :: 0 <= i < |ops| ==> more[i] == ops[i];
    assert more[|ops|] == op;
  }

  lemma DefaultNext(ops: seq<Op>, op: Op, k: nat)
    ensures DefaultAt(ops + [op], k) <==> if op.SetDefault? then k == |ops| else DefaultAt(ops, k)
  {
    var more := ops + [op];
    assert forall i :: 0 <= i < |ops| ==> more[i] == ops[i];
    assert more[|ops|] == op;
  }

  lemma {:induction false} RunsLast(s: State, ops: seq<Op>, op: Op, z: State) returns (mid: State)
    requires Runs(s, ops + [op], z)
    ensures Runs(s, ops, mid) && mid.history != [] && Enabled(mid, op) && z == Apply(mid, op)
    decreases |ops|
  {
    hide Apply, Enabled;
    if ops == [] {
      mid := s;
      assert ([op])[1..] == [] && ops + [op] == [op];
    } else {
      assert (ops + [op])[1..] == ops[1..] + [op];
      mid := RunsLast(Apply(s, ops[0]), ops[1..], op, z);
    }
  }

  /** The registry holds the file's own policy exactly if one is in force, and the last default. */
  ghost predicate Faithful(fallback: Loader, ops: seq<Op>, r: Registry, name: string) {
    && (forall k: nat :: CustomAt(ops, name, k) ==> name in r.custom && r.custom[name] == ops[k].loader)
    && ((forall k: nat :: !CustomAt(ops, name, k)) ==> name !in r.custom)
    && (forall k: nat :: DefaultAt(ops, k) ==> r.fallback == ops[k].loader)
    && ((forall k: nat :: !DefaultAt(ops, k)) ==> r.fallback == fallback)
  }

  function Republished(r: Registry, op: Op): Registry {
    match op
    case SetLoader(name, ld, _) => r.(custom := r.custom[name := ld])
    case SetDefault(ld, _) => r.(fallback := ld)
    case DropCustom => r.(custom := map[])
    case _ => r
  }

  lemma FaithfulNext(fallback: Loader, ops: seq<Op>, op: Op, r: Registry, name: string)
    requires Faithful(fallback, ops, r, name)
    ensures Faithful(fallback, ops + [op], Republished(r, op), name)
  {
    hide CustomAt, DefaultAt;
    var more := ops + [op];
    forall k: nat
      ensures CustomAt(more, name, k) <==>
                if op.SetLoader? && op.name == name then k == |ops| else !op.DropCustom? && CustomAt(ops, name, k)
      ensures DefaultAt(more, k) <==> if op.SetDefault? then k == |ops| else DefaultAt(ops, k)
    {
      CustomNext(ops, op, name, k);
      DefaultNext(ops, op, k);
    }
    assert op.SetLoader? && op.name == name ==> CustomAt(more, name, |ops|);
    assert op.SetDefault? ==> DefaultAt(more, |ops|);
    forall k: nat | CustomAt(ops, name, k)
      ensures k < |ops| && more[k] == ops[k] && (CustomAt(more, name, k) || op.DropCustom? || op.SetLoader?)
    {
      CustomAtIs(ops, name, k);
    }
    forall k: nat | DefaultAt(ops, k)
      ensures k < |ops| && more[k] == ops[k] && (DefaultAt(more, k) || op.SetDefault?)
    {
      DefaultAtIs(ops, k);
    }
  }

  lemma CustomAtIs(ops: seq<Op>, name: string, k: nat)
    requires CustomAt(ops, name, k)
    ensures k < |ops| && ops[k].SetLoader?
  {
  }

  lemma DefaultAtIs(ops: seq<Op>, k: nat)
    requires DefaultAt(ops, k)
    ensures k < |ops| && ops[k].SetDefault?
  {
  }

  lemma ApplyRegistry(s: State, op: Op)
    requires s.history != [] && Enabled(s, op)
    ensures Apply(s, op).history != [] && Current(Apply(s, op)) == Republished(Current(s), op)
  {
    hide RegionsOf, Held, RegionOf;
  }

  lemma {:induction false} RegistryFaithful(fallback: Loader, ops: seq<Op>, z: State, name: string)
    requires Runs(Init(fallback), ops, z)
    ensures z.history != [] && Faithful(fallback, ops, Current(z), name)
    decreases |ops|
  {
    if ops != [] {
      hide Apply, Runs, Faithful, Enabled, Init;
      var n := |ops| - 1;
      assert ops[..n] + [ops[n]] == ops;
      var mid := RunsLast(Init(fallback), ops[..n], ops[n], z);
      RegistryFaithful(fallback, ops[..n], mid, name);
      FaithfulNext(fallback, ops[..n], ops[n], Current(mid), name);
      ApplyRegistry(mid, ops[n]);
    }
  }

  lemma LookedUp(fallback: Loader, ops: seq<Op>, r: Registry, name: string)
    requires Faithful(fallback, ops, r, name)
    ensures InForce(fallback, ops, name, r.At(name))
  {
    hide CustomAt, DefaultAt;
  }

  /** What a task's place or the policies so far make of it. */
  ghost predicate RightMaker(fallback: Loader, ops: seq<Op>, task: Task, maker: Maker) {
    match task.loc
    case FromRegistry => maker.ByLoader? && InForce(fallback, ops, task.name, maker.loader)
    case Place(p) => maker == ByPlace(p)
  }

  /** The task ended at operation `k`, and its record was made as it should be made then. */
  ghost predicate EndedAt(fallback: Loader, ops: seq<Op>, t: nat, task: Task, k: nat) {
    && k < |ops| && ops[k].Finish? && ops[k].task == t
    && task.phase.Done? && task.phase.record.regions == ops[k].regions
    && RightMaker(fallback, ops[..k], task, task.phase.record.maker)
  }

  lemma EndedStays(fallback: Loader, ops: seq<Op>, op: Op, t: nat, task: Task, k: nat)
    requires EndedAt(fallback, ops, t, task, k)
    ensures EndedAt(fallback, ops + [op], t, task, k)
  {
    hide RightMaker;
    assert (ops + [op])[..k] == ops[..k];
  }

  lemma ApplyTask(s: State, op: Op, t: nat)
    requires s.history != [] && Enabled(s, op) && t < |Apply(s, op).tasks|
    ensures var task := Apply(s, op).tasks[t];
            if op.Finish? && op.task == t then
              t < |s.tasks| && task == s.tasks[t].(phase := Done(Record(MakerOf(Current(s), s.tasks[t]), |s.history| - 1, op.regions)))
            else if t < |s.tasks| then task == s.tasks[t]
            else task.phase.Pending?
  {
    hide RegionsOf, Held, RegionOf;
  }

  /** In every run, a task whose file is there was ended by an operation, and what made the record is the
      policy in force at that moment: the file's own one if it was given one since custom policies were last
      dropped, and otherwise the last default. */
  lemma {:induction false} LoadedByPolicy(fallback: Loader, ops: seq<Op>, z: State, t: nat) returns (k: nat)
    requires Runs(Init(fallback), ops, z) && t < |z.tasks| && z.tasks[t].phase.Done?
    ensures EndedAt(fallback, ops, t, z.tasks[t], k)
    decreases |ops|
  {
    hide Apply, Runs, Enabled, EndedAt, MakerOf, Current, InForce;
    if ops == [] {
      NothingRuns(fallback, z);
      assert false;
    } else {
      var n := |ops| - 1;
      assert ops[..n] + [ops[n]] == ops;
      var mid := RunsLast(Init(fallback), ops[..n], ops[n], z);
      ApplyTask(mid, ops[n], t);
      if ops[n].Finish? && ops[n].task == t {
        k := n;
        MadeNow(fallback, ops[..n], mid, mid.tasks[t]);
        EndsNow(fallback, ops, t, z.tasks[t], n);
      } else {
        k := LoadedByPolicy(fallback, ops[..n], mid, t);
        EndedStays(fallback, ops[..n], ops[n], t, z.tasks[t], k);
      }
    }
  }

  lemma NothingRuns(fallback: Loader, z: State)
    requires Runs(Init(fallback), [], z)
    ensures z.tasks == []
  {
  }

  lemma MadeNow(fallback: Loader, ops: seq<Op>, s: State, task: Task)
    requires Runs(Init(fallback), ops, s)
    ensures s.history != [] && RightMaker(fallback, ops, task, MakerOf(Current(s), task))
  {
    hide Runs, InForce, Faithful;
    RegistryFaithful(fallback, ops, s, task.name);
    LookedUp(fallback, ops, Current(s), task.name);
  }

  lemma EndsNow(fallback: Loader, ops: seq<Op>, t: nat, task: Task, k: nat)
    requires k < |ops| && ops[k].Finish? && ops[k].task == t && task.phase.Done?
    requires task.phase.record.regions == ops[k].regions
    requires RightMaker(fallback, ops[..k], task, task.phase.record.maker)
    ensures EndedAt(fallback, ops, t, task, k)
  {
  }

  /** Whatever the cache holds for `name` is task `m` or a later one. */
  ghost predicate StartedSince(s: State, name: string, m: nat) {
    m <= |s.tasks| && (name in s.files ==> s.files[name] >= m)
  }

  lemma StepSince(s: State, op: Op, name: string, m: nat)
    requires Inv(s) && Enabled(s, op) && StartedSince(s, name, m)
    ensures StartedSince(Apply(s, op), name, m)
  {
    hide Registered, Disjoint, RegionsOf, Held;
  }

  /** The state after some of the operations, and what holds from there on. */
  lemma {:induction false} ForcedSince(fallback: Loader, ops: seq<Op>, c: nat, z: State, name: string) returns (mid: State)
    requires Runs(Init(fallback), ops, z) && c < |ops| && Forces(ops[c], name)
    ensures Runs(Init(fallback), ops[..c], mid) && Inv(z) && StartedSince(z, name, |mid.tasks|)
    decreases |ops|
  {
    hide Apply, Runs, Inv, StartedSince, Enabled;
    var n := |ops| - 1;
    assert ops[..n] + [ops[n]] == ops;
    var last := RunsLast(Init(fallback), ops[..n], ops[n], z);
    EveryReachable(fallback, ops, z);
    EveryReachable(fallback, ops[..n], last);
    if c == n {
      mid := last;
      ForceStarts(last, ops[n], name);
    } else {
      mid := ForcedSince(fallback, ops[..n], c, last, name);
      assert ops[..n][..c] == ops[..c];
      StepSince(last, ops[n], name, |mid.tasks|);
    }
  }

  lemma ForceStarts(s: State, change: Op, name: string)
    requires Inv(s) && Enabled(s, change) && Forces(change, name)
    ensures StartedSince(Apply(s, change), name, |s.tasks|)
  {
    hide Registered, Disjoint, RegionsOf, Held;
  }

  /** A task can end only once it has been started. */
  lemma {:induction false} EndedLater(s: State, ops: seq<Op>, z: State, mid: State, c: nat, k: nat)
    requires Runs(s, ops, z) && c < |ops| && Runs(s, ops[..c], mid)
    requires k < c && ops[k].Finish?
    ensures ops[k].task < |mid.tasks|
    decreases c
  {
    hide Apply, Enabled;
    if k == 0 {
      FinishStarted(s, ops[0]);
      assert ops[..c][1..] == ops[1..][..c - 1];
      TasksStay(Apply(s, ops[0]), ops[1..][..c - 1], mid);
    } else {
      assert ops[..c][1..] == ops[1..][..c - 1];
      EndedLater(Apply(s, ops[0]), ops[1..], z, mid, c - 1, k - 1);
    }
  }

  lemma FinishStarted(s: State, op: Op)
    requires op.Finish? && s.history != [] && Enabled(s, op)
    ensures op.task < |Apply(s, op).tasks|
  {
  }

  lemma {:induction false} TasksStay(s: State, ops: seq<Op>, z: State)
    requires Runs(s, ops, z)
    ensures |s.tasks| <= |z.tasks|
    decreases |ops|
  {
    hide Apply, Enabled;
    if ops != [] {
      TasksGrow(s, ops[0]);
      TasksStay(Apply(s, ops[0]), ops[1..], z);
    }
  }

  lemma TasksGrow(s: State, op: Op)
    requires s.history != [] && Enabled(s, op)
    ensures |s.tasks| <= |Apply(s, op).tasks|
  {
    hide RegionsOf, Held, RegionOf;
  }

  /** After a forced change, in every run, a cached file that is there was loaded behind that change, by the
      policy in force at that later moment. */
  lemma ForcedChangeSeen(fallback: Loader, ops: seq<Op>, c: nat, z: State, name: string) returns (k: nat)
    requires Runs(Init(fallback), ops, z) && c < |ops| && Forces(ops[c], name)
    requires name in z.files && z.files[name] < |z.tasks| && z.tasks[z.files[name]].phase.Done?
    ensures c < k && z.tasks[z.files[name]].name == name
    ensures EndedAt(fallback, ops, z.files[name], z.tasks[z.files[name]], k)
  {
    hide Runs, RightMaker, Served;
    var t := z.files[name];
    k := LoadedByPolicy(fallback, ops, z, t);
    var mid := ForcedSince(fallback, ops, c, z, name);
    if k < c {
      EndedLater(Init(fallback), ops, z, mid, c, k);
    }
  }

  predicate Change(op: Op) {
    op.SetLoader? || op.SetDefault? || op.DropCustom?
  }

  lemma ChangeEffect(s: State, change: Op, name: string)
    requires Inv(s) && Change(change)
    ensures var s1 := Apply(s, change);
            && s1.tasks == s.tasks && s1.history != []
            && (name in s1.files <==> name in s.files && !Forces(change, name))
            && (name in s1.files ==> s1.files[name] == s.files[name])
  {
    hide Registered, Disjoint, RegionsOf, Held;
  }

  /** The first fetch after a change of policy returns an old copy exactly if the change is not forced
      and the file is already loaded; otherwise the file is yet to be loaded. */
  lemma NextGet(s: State, change: Op, name: string)
    requires Inv(s) && Change(change)
    ensures var s1 := Apply(s, change);
            var s2 := Apply(s1, GetOrLoad(name, FromRegistry));
            && name in s2.files && s2.files[name] < |s2.tasks| && Current(s2) == Current(s1)
            && var task := s2.tasks[s2.files[name]];
            && (task.phase.Done? <==>
                  !Forces(change, name) && name in s.files && s.tasks[s.files[name]].phase.Done?)
            && (task.phase.Done? ==> task == s.tasks[s.files[name]])
            && (Forces(change, name) ==> task == Task(name, FromRegistry, |s1.history| - 1, Pending))
  {
    ChangeEffect(s, change, name);
    hide Registered, Disjoint, RegionsOf, Held, ApplyUnload, ApplyUnloadAll;
  }
}
