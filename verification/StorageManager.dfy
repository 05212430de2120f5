/** The storage manager object.  Its methods follow the state machine of StorageCache. */
module StorageManager {
  import opened StorageCache

  class Manager {
    var registry: Registry
    var tasks: seq<Task>
    var files: map<string, nat>
    var readers: multiset<nat>
    var registered: set<nat>
    var version: nat
    ghost var history: seq<Registry>

    ghost function Abs(): State
      reads this
    {
      State(history, tasks, files, readers, registered)
    }

    ghost predicate Valid()
      reads this
    {
      Inv(Abs()) && history != [] && registry == Current(Abs()) && version == |history| - 1
    }

    /** `fallback` stands for the loader to all sockets. */
    constructor (fallback: Loader)
      ensures Valid() && Abs() == Init(fallback)
    {
      registry := Registry(fallback, map[]);
      tasks, files, readers, registered := [], map[], multiset{}, {};
      version := 0;
      history := [Registry(fallback, map[])];
    }

    /** A future was let go of; the last holder destroys the record, which unregisters its regions. */
    method DropFuture(t: nat)
      requires t < |tasks|
      modifies this`registered
      ensures Abs() == Release(old(Abs()), t)
    {
      if t !in files.Values && t !in readers && tasks[t].phase.Done? {
        registered := registered - tasks[t].phase.record.regions;
      }
    }

    /** The task is started before the cache decides whether to keep its future. */
    method Load(name: string, loc: Location)
      requires Valid()
      modifies this
      ensures Valid() && Abs() == Apply(old(Abs()), Op.Load(name, loc))
    {
      hide Inv, RegionsOf;
      ApplyKeeps(Abs(), Op.Load(name, loc));
      var t := |tasks|;
      tasks := tasks + [Task(name, loc, version, Pending)];
      if name !in files {
        files := files[name := t];
      }
    }

    method GetFile(name: string) returns (t: nat)
      requires Valid() && name in files
      modifies this
      ensures Valid() && Abs() == Apply(old(Abs()), Get(name))
      ensures name in files && t == files[name]
    {
      hide Inv, RegionsOf;
      ApplyKeeps(Abs(), Get(name));
      t := files[name];
      readers := readers[t := readers[t] + 1];
    }

    method GetOrLoadFile(name: string, loc: Location) returns (t: nat)
      requires Valid()
      modifies this
      ensures Valid() && Abs() == Apply(old(Abs()), GetOrLoad(name, loc))
      ensures name in files && t == files[name]
    {
      if name !in files {
        Load(name, loc);
      }
      t := GetFile(name);
    }

    /** The thread pool ends a task: the record is built, and destroyed at once if nobody holds it. */
    method FinishTask(t: nat, regions: set<nat>)
      requires Valid() && Enabled(Abs(), Finish(t, regions))
      modifies this
      ensures Valid() && Abs() == Apply(old(Abs()), Finish(t, regions))
    {
      hide Inv, RegionsOf;
      ApplyKeeps(Abs(), Finish(t, regions));
      var maker := match tasks[t].loc
        case FromRegistry => ByLoader(registry.At(tasks[t].name))
        case Place(p) => ByPlace(p);
      tasks := tasks[t := tasks[t].(phase := Done(Record(maker, version, regions)))];
      registered := registered + regions;
      DropFuture(t);
    }

    method FinishRead(t: nat)
      requires Valid() && Enabled(Abs(), EndRead(t))
      modifies this
      ensures Valid() && Abs() == Apply(old(Abs()), EndRead(t))
    {
      hide Inv, RegionsOf;
      ApplyKeeps(Abs(), EndRead(t));
      readers := readers[t := readers[t] - 1];
      DropFuture(t);
    }

    method UnloadFile(name: string)
      requires Valid()
      modifies this`files, this`registered
      ensures Valid() && Abs() == ApplyUnload(old(Abs()), name)
    {
      hide Served, Disjoint, Registered, RegionsOf;
      UnloadKeeps(Abs(), name);
      if name !in files {
        return;
      }
      var t := files[name];
      files := files - {name};
      DropFuture(t);
    }

    /** Clearing the map lets go of one future after the other. */
    method UnloadAll()
      requires Valid()
      modifies this`files, this`registered
      ensures Valid() && Abs() == ApplyUnloadAll(old(Abs()))
    {
      hide Wired, Disjoint, RegionsOf, Held;
      UnloadAllKeeps(Abs());
      while files != map[]
        invariant Valid()
        decreases |files|
      {
        var name :| name in files;
        UnloadFile(name);
      }
      HeldSame(Abs(), ApplyUnloadAll(old(Abs())));
    }

    method SetLoader(name: string, ld: Loader, force: bool)
      requires Valid()
      modifies this
      ensures Valid() && Abs() == Apply(old(Abs()), Op.SetLoader(name, ld, force))
    {
      hide Inv, RegionsOf;
      ApplyKeeps(Abs(), Op.SetLoader(name, ld, force));
      if force {
        UnloadFile(name);
      }
      registry := registry.(custom := registry.custom[name := ld]);
      version, history := version + 1, history + [registry];
    }

    method SetDefaultLoader(ld: Loader, force: bool)
      requires Valid()
      modifies this
      ensures Valid() && Abs() == Apply(old(Abs()), SetDefault(ld, force))
    {
      hide Inv, RegionsOf;
      ApplyKeeps(Abs(), SetDefault(ld, force));
      if force {
        UnloadAll();
      }
      registry := registry.(fallback := ld);
      version, history := version + 1, history + [registry];
    }

    method DropAllCustomLoaders()
      requires Valid()
      modifies this
      ensures Valid() && Abs() == Apply(old(Abs()), DropCustom)
    {
      hide Inv, RegionsOf;
      ApplyKeeps(Abs(), DropCustom);
      registry := registry.(custom := map[]);
      version, history := version + 1, history + [registry];
    }
  }
}
