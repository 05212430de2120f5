/** Query shaping rewrites one join path into broadcast builds, a routed probe, a path per worker and
    a collect step.  The rewritten plan returns the multiset of the plain path, for every routing
    choice and degree of parallelism: on one server, across servers, and split over CPU and GPU. */
module QueryShaping {
  import opened Sequences
  import opened Streams

  /** What a shaper's virtual methods answer: `getDOP`, `getDevice`, `doMove`. */
  datatype Shaper = Shaper(dop: nat, device: Device, moves: bool)

  /** What is scanned is on the CPU. */
  function Scanned<T>(s: Stream<T>): Rel<T> {
    Rel(s, CPU, false)
  }

  function DistributeProbe<T>(sh: Shaper, input: Rel<T>, choice: nat -> nat): (r: Rel<T>)
    requires sh.dop > 0 && input.on == CPU
    ensures |r.parts| == sh.dop && r.on == sh.device && r.local == sh.moves
  {
    var rel := Route(input, sh.dop, choice);
    var rel := if sh.moves then MemMove(rel) else rel;
    if sh.device == GPU then ToGpu(rel) else rel
  }

  function DistributeBuild<T>(sh: Shaper, input: Rel<T>): (r: Rel<T>)
    requires sh.dop > 0 && input.on == CPU
    ensures |r.parts| == sh.dop && r.on == sh.device && r.local
  {
    var rel := Spread(input, sh.dop);
    if sh.device == GPU then ToGpu(rel) else rel
  }

  function CollectUnpacked<T>(sh: Shaper, input: Rel<T>, choice: nat -> nat): Rel<T>
    requires input.on == sh.device
  {
    Route(if sh.device == GPU then ToCpu(input) else input, 1, choice)
  }

  function CollectPacked<T>(sh: Shaper, input: Rel<T>, choice: nat -> nat): Rel<T>
    requires input.on == sh.device
  {
    MemMove(CollectUnpacked(sh, input, choice))
  }

  function Collect<T>(sh: Shaper, input: Rel<T>, packed: bool, choice: nat -> nat): Rel<T>
    requires input.on == sh.device
  {
    if packed then CollectPacked(sh, input, choice) else CollectUnpacked(sh, input, choice)
  }

  /** The whole of each build input, as one table. */
  function Whole<T>(builds: seq<Stream<T>>): seq<seq<T>> {
    seq(|builds|, j requires 0 <= j < |builds| => Flatten(builds[j]))
  }

  /** Every worker holds every build tuple exactly once. */
  lemma BuildReachesEveryWorker<T>(sh: Shaper, input: Rel<T>, w: nat)
    requires w < sh.dop && input.on == CPU
    ensures DistributeBuild(sh, input).parts[w] == Flatten(input.parts)
  {
    BroadcastReaches(Flatten(input.parts), sh.dop, w);
  }

  /** Every probe tuple is at exactly one worker. */
  lemma ProbeReachesOneWorker<T>(sh: Shaper, input: Rel<T>, choice: nat -> nat)
    requires sh.dop > 0 && input.on == CPU
    ensures multiset(Flatten(DistributeProbe(sh, input, choice).parts)) == multiset(Flatten(input.parts))
  {
    RouterOnce(input.parts, sh.dop, choice);
  }

  /** All results are merged into one stream on the CPU, and brought there if they are packed. */
  lemma CollectMerges<T>(sh: Shaper, input: Rel<T>, packed: bool, choice: nat -> nat)
    requires input.on == sh.device
    ensures Collect(sh, input, packed, choice) == Rel([Flatten(input.parts)], CPU, packed)
  {
    RouterToOne(input.parts, choice);
  }

  /** `QueryShaper::parallel`: the probe is shared out between the workers, every worker runs the path on
      its share with all of the builds, and the results are merged.  Nothing is asked of the path. */
  method Parallel<T>(sh: Shaper, probe: Stream<T>, builds: seq<Stream<T>>, path: Path<T>,
                     packed: bool, choice: nat -> nat, last: nat -> nat)
    returns (r: Rel<T>, ghost shares: Rel<T>)
    requires sh.dop > 0
    ensures |r.parts| == 1 && r.on == CPU && r.local == packed
    ensures |shares.parts| == sh.dop && shares.on == sh.device && shares.local == sh.moves
    ensures Shared(path, Flatten(probe), Whole(builds), shares.parts, r.parts[0])
  {
    hide Broadcast, RouterByTarget, Router, Collect;
    var parallelizedBuilds: seq<Rel<T>> := [];
    for i := 0 to |builds|
      invariant |parallelizedBuilds| == i
      invariant forall j :: 0 <= j < i ==>
                  |parallelizedBuilds[j].parts| == sh.dop && parallelizedBuilds[j].on == sh.device
      invariant forall j, w :: 0 <= j < i && 0 <= w < sh.dop ==>
                  parallelizedBuilds[j].parts[w] == Whole(builds)[j]
    {
      forall w: nat | w < sh.dop ensures DistributeBuild(sh, Scanned(builds[i])).parts[w] == Flatten(builds[i]) {
        BuildReachesEveryWorker(sh, Scanned(builds[i]), w);
      }
      parallelizedBuilds := parallelizedBuilds + [DistributeBuild(sh, Scanned(builds[i]))];
    }
    var parallelizedProbe := DistributeProbe(sh, Scanned(probe), choice);
    var rel := RunOn(path, parallelizedProbe, parallelizedBuilds);
    r := Collect(sh, rel, packed, last);
    shares := parallelizedProbe;
    CollectMerges(sh, rel, packed, last);
    ProbeReachesOneWorker(sh, Scanned(probe), choice);
    SameTables(path, parallelizedProbe.parts, PartsOf(parallelizedBuilds), Whole(builds));
  }

  /** `HybridSingleServer::parallel` and its lazy variant: builds are broadcast to both device
      kinds, the probe is split between them, and the two results are merged. */
  method HybridParallel<T>(cpu: Shaper, gpu: Shaper, probe: Stream<T>, builds: seq<Stream<T>>,
                           path: Path<T>, packed: bool, split: nat -> nat,
                           choiceG: nat -> nat, choiceC: nat -> nat, last: nat -> nat)
    returns (r: Rel<T>, ghost shares: Stream<T>)
    requires cpu.dop > 0 && gpu.dop > 0
    ensures |r.parts| == 1 && r.on == CPU && |shares| == gpu.dop + cpu.dop
    ensures Shared(path, Flatten(probe), Whole(builds), shares, r.parts[0])
  {
    hide Flatten, Broadcast, DistributeBuild, RouterByTarget, Collect, RunEach, Router;
    var buildsG: seq<Rel<T>> := [];
    var buildsC: seq<Rel<T>> := [];
    for i := 0 to |builds|
      invariant |buildsG| == |buildsC| == i
      invariant forall j :: 0 <= j < i ==> |buildsG[j].parts| == gpu.dop && buildsG[j].on == gpu.device
      invariant forall j :: 0 <= j < i ==> |buildsC[j].parts| == cpu.dop && buildsC[j].on == cpu.device
      invariant forall j, w :: 0 <= j < i && 0 <= w < gpu.dop ==> buildsG[j].parts[w] == Whole(builds)[j]
      invariant forall j, w :: 0 <= j < i && 0 <= w < cpu.dop ==> buildsC[j].parts[w] == Whole(builds)[j]
    {
      var pb := Spread(Scanned(builds[i]), 2).parts;
      BothBranches(Flatten(builds[i]));
      BranchReaches(gpu, pb[0]);
      BranchReaches(cpu, pb[1]);
      buildsG := buildsG + [DistributeBuild(gpu, Scanned([pb[0]]))];
      buildsC := buildsC + [DistributeBuild(cpu, Scanned([pb[1]]))];
    }
    var halves := Route(Scanned(probe), 2, split).parts;
    var probeG := DistributeProbe(gpu, Scanned([halves[0]]), choiceG);
    var probeC := DistributeProbe(cpu, Scanned([halves[1]]), choiceC);
    var relG := RunOn(path, probeG, buildsG);
    var relC := RunOn(path, probeC, buildsC);
    var outC := Collect(cpu, relC, packed, last);
    var outG := Collect(gpu, relG, packed, last);
    CollectMerges(cpu, relC, packed, last);
    CollectMerges(gpu, relG, packed, last);
    var both := Both(outG, outC);
    r := Route(both, 1, last);
    shares := probeG.parts + probeC.parts;
    RouterToOne(both.parts, last);
    SameTables(path, probeG.parts, PartsOf(buildsG), Whole(builds));
    SameTables(path, probeC.parts, PartsOf(buildsC), Whole(builds));
    SharesOfHalves(path, probe, Whole(builds), split, gpu, cpu, choiceG, choiceC);
    assert both.parts == [Flatten(relG.parts), Flatten(relC.parts)];
    FlattenTwo(Flatten(relG.parts), Flatten(relC.parts));
  }

  /** The union of two streams of one device. */
  function Both<T>(a: Rel<T>, b: Rel<T>): Rel<T>
    requires a.on == b.on
  {
    Rel(a.parts + b.parts, a.on, a.local && b.local)
  }

  /** Two halves, each shared out between its workers, are the probe shared out between all of them. */
  lemma SharesOfHalves<T>(path: Path<T>, probe: Stream<T>, tables: seq<seq<T>>, split: nat -> nat,
                          gpu: Shaper, cpu: Shaper, choiceG: nat -> nat, choiceC: nat -> nat)
    requires cpu.dop > 0 && gpu.dop > 0
    ensures var h := Router(probe, 2, split);
            var g := DistributeProbe(gpu, Scanned([h[0]]), choiceG).parts;
            var c := DistributeProbe(cpu, Scanned([h[1]]), choiceC).parts;
            Shared(path, Flatten(probe), tables, g + c,
                   Flatten(RunEach(path, g, tables)) + Flatten(RunEach(path, c, tables)))
  {
    hide Flatten, RunEach, DistributeProbe, Router;
    var h := Router(probe, 2, split);
    var g := DistributeProbe(gpu, Scanned([h[0]]), choiceG).parts;
    var c := DistributeProbe(cpu, Scanned([h[1]]), choiceC).parts;
    RouterOnce(probe, 2, split);
    assert h == [h[0], h[1]];
    FlattenTwo(h[0], h[1]);
    ProbeReachesOneWorker(gpu, Scanned([h[0]]), choiceG);
    ProbeReachesOneWorker(cpu, Scanned([h[1]]), choiceC);
    FlattenOne(h[0]);
    FlattenOne(h[1]);
    SharedConcat(path, h[0], h[1], tables, g, c, Flatten(RunEach(path, g, tables)),
                 Flatten(RunEach(path, c, tables)));
  }

  lemma BothBranches<T>(xs: seq<T>)
    ensures RouterByTarget(Broadcast(xs, 2), 2) == [xs, xs]
  {
    BroadcastReaches(xs, 2, 0);
    BroadcastReaches(xs, 2, 1);
  }

  lemma BranchReaches<T>(sh: Shaper, xs: seq<T>)
    requires sh.dop > 0
    ensures forall w: nat :: w < sh.dop ==> DistributeBuild(sh, Scanned([xs])).parts[w] == xs
  {
    forall w: nat | w < sh.dop ensures DistributeBuild(sh, Scanned([xs])).parts[w] == xs {
      BuildReachesEveryWorker(sh, Scanned([xs]), w);
      FlattenOne(xs);
    }
  }

  lemma FlattenTwo<T>(a: seq<T>, b: seq<T>)
    ensures Flatten([a, b]) == a + b
  {
    assert [a, b][..1] == [a];
    FlattenOne(a);
  }
}
