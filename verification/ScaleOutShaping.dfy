/** The shaped plan across servers.  Every server runs the same plan on its own share of the inputs;
    builds are broadcast to all servers and then to all their workers, the probe is re-routed between
    servers and then between workers, and the results are sent to server 0. */
module ScaleOutShaping {
  import opened Sequences
  import opened Streams
  import opened QueryShaping

  /** A stream on every server. */
  type Cluster<T> = seq<Stream<T>>

  /** What each server holds, merged. */
  function Shares<T>(c: Cluster<T>): seq<seq<T>> {
    Whole(c)
  }

  /** What server `d` receives when each server `s` of `n` sends all its tuples to `dest(s)`. */
  function Inbox<T>(shares: seq<seq<T>>, n: nat, dest: nat -> nat, d: nat): seq<T>
    requires n > 0
  {
    Flatten(Pick(shares, n, dest, d))
  }

  /** `router_scaleout` with a target that depends on the sending server only. */
  function RouterScaleOut<T>(shares: seq<seq<T>>, n: nat, dest: nat -> nat): (r: seq<seq<T>>)
    requires n > 0
    ensures |r| == n
  {
    seq(n, d requires 0 <= d < n => Inbox(shares, n, dest, d))
  }

  /** What server `d` receives when every server broadcasts to all of them. */
  function BroadcastInbox<T>(c: Cluster<T>, d: nat): seq<T>
    requires d < |c|
  {
    Flatten(seq(|c|, s requires 0 <= s < |c| =>
                  Addressed(Broadcast(Flatten(c[s]), |c|), |c|, d)))
  }

  /** The scale-out `distribute_build`: first to all servers, then on each to all its workers. */
  function DistributeBuildScaleOut<T>(dops: seq<nat>, device: Device, input: Cluster<T>): (r: seq<Rel<T>>)
    requires |dops| == |input| && forall s :: 0 <= s < |dops| ==> dops[s] > 0
    ensures |r| == |input| && forall d :: 0 <= d < |r| ==> |r[d].parts| == dops[d] && r[d].on == device
  {
    seq(|input|, d requires 0 <= d < |input| =>
          DistributeBuild(Shaper(dops[d], device, true), Scanned([BroadcastInbox(input, d)])))
  }

  /** `distribute_probe` on server `d`: between servers, then inside the server. */
  function DistributeProbeScaleOut<T>(dops: seq<nat>, device: Device, input: Cluster<T>,
                                      dest: nat -> nat, choice: nat -> nat, d: nat): (r: Rel<T>)
    requires |dops| == |input| && d < |dops| && dops[d] > 0
    ensures |r.parts| == dops[d] && r.on == device
  {
    var inbox := MemMove(Rel([RouterScaleOut(Shares(input), |input|, dest)[d]], CPU, false));
    DistributeProbe(Shaper(dops[d], device, false), inbox, choice)
  }

  /** The own-server and the rotated target of the two families of scale-out shapers. */
  function OwnServer(): nat -> nat {
    s => s
  }

  function ToServerZero(): nat -> nat {
    s => 0
  }

  function NextServer(n: nat): nat -> nat
    requires n > 0
  {
    s => Slot(s + 1, n)
  }

  function AllShares<T>(builds: seq<Cluster<T>>): seq<seq<T>> {
    seq(|builds|, j requires 0 <= j < |builds| => Flatten(Shares(builds[j])))
  }

  ghost predicate Sized<T>(dops: seq<nat>, probe: Cluster<T>, builds: seq<Cluster<T>>) {
    && |dops| == |probe| > 0
    && (forall s :: 0 <= s < |dops| ==> dops[s] > 0)
    && (forall j :: 0 <= j < |builds| ==> |builds[j]| == |dops|)
  }

  /** The build tables that the workers of server `d` hold. */
  function ServerBuilds<T>(dops: seq<nat>, device: Device, builds: seq<Cluster<T>>, d: nat)
    : (r: seq<Rel<T>>)
    requires (forall s :: 0 <= s < |dops| ==> dops[s] > 0) && d < |dops|
    requires forall j :: 0 <= j < |builds| ==> |builds[j]| == |dops|
    ensures |r| == |builds| && forall j :: 0 <= j < |r| ==> |r[j].parts| == dops[d] && r[j].on == device
  {
    seq(|builds|, j requires 0 <= j < |builds| => DistributeBuildScaleOut(dops, device, builds[j])[d])
  }

  /** What server `d` has collected before the results go to server 0. */
  function ServerResult<T>(dops: seq<nat>, device: Device, probe: Cluster<T>, builds: seq<Cluster<T>>,
                           path: Path<T>, dest: nat -> nat,
                           choice: nat -> nat -> nat, d: nat): seq<T>
    requires Sized(dops, probe, builds) && d < |dops|
  {
    var parts := DistributeProbeScaleOut(dops, device, probe, dest, choice(d), d);
    var rel := RunOn(path, parts, ServerBuilds(dops, device, builds, d));
    Flatten(CollectUnpacked(Shaper(dops[d], device, true), rel, choice(d)).parts)
  }

  /** The inherited `parallel` with the scale-out steps: what each server ends up with. */
  function ParallelScaleOut<T>(dops: seq<nat>, device: Device, probe: Cluster<T>,
                               builds: seq<Cluster<T>>, path: Path<T>, packed: bool,
                               dest: nat -> nat, choice: nat -> nat -> nat): (r: Rel<T>)
    requires Sized(dops, probe, builds)
  {
    var r := Rel(RouterScaleOut(ServerResults(dops, device, probe, builds, path, dest, choice), |dops|,
                                ToServerZero()), CPU, false);
    if packed then MemMove(r) else r
  }

  function ServerResults<T>(dops: seq<nat>, device: Device, probe: Cluster<T>,
                            builds: seq<Cluster<T>>, path: Path<T>,
                            dest: nat -> nat, choice: nat -> nat -> nat): (r: seq<seq<T>>)
    requires Sized(dops, probe, builds)
    ensures |r| == |dops|
  {
    seq(|dops|, d requires 0 <= d < |dops| =>
          ServerResult(dops, device, probe, builds, path, dest, choice, d))
  }

  /** Broadcasting between servers gives every server everything. */
  lemma BroadcastInboxIsAll<T>(c: Cluster<T>, d: nat)
    requires d < |c|
    ensures BroadcastInbox(c, d) == Flatten(Shares(c))
  {
    var got := seq(|c|, s requires 0 <= s < |c| => Addressed(Broadcast(Flatten(c[s]), |c|), |c|, d));
    forall s | 0 <= s < |c| ensures got[s] == Shares(c)[s] {
      BroadcastReaches(Flatten(c[s]), |c|, d);
    }
    assert got == Shares(c);
  }

  /** Every worker of every server holds every build tuple of the cluster exactly once. */
  lemma BuildReachesWholeCluster<T>(dops: seq<nat>, device: Device, input: Cluster<T>, d: nat, w: nat)
    requires |dops| == |input| && (forall s :: 0 <= s < |dops| ==> dops[s] > 0)
    requires d < |dops| && w < dops[d]
    ensures DistributeBuildScaleOut(dops, device, input)[d].parts[w] == Flatten(Shares(input))
  {
    BroadcastInboxIsAll(input, d);
    BranchReaches(Shaper(dops[d], device, true), BroadcastInbox(input, d));
  }

  /** The last share is added to one inbox. */
  lemma InboxesExtend<T>(shares: seq<seq<T>>, n: nat, dest: nat -> nat)
    requires n > 0 && shares != []
    ensures var k := |shares| - 1;
            var w := Slot(dest(k), n);
            var before := RouterScaleOut(shares[..k], n, dest);
            RouterScaleOut(shares, n, dest) == before[w := before[w] + shares[k]]
  {
    hide Slot;
    var k := |shares| - 1;
    var w := Slot(dest(k), n);
    var before := RouterScaleOut(shares[..k], n, dest);
    forall d: nat | d < n
      ensures RouterScaleOut(shares, n, dest)[d] == before[w := before[w] + shares[k]][d]
    {
      var picked := Pick(shares[..k], n, dest, d);
      assert Pick(shares, n, dest, d) == picked + (if w == d then [shares[k]] else []);
      FlattenAppend(picked, shares[k]);
      assert picked + [] == picked;
    }
  }

  /** Re-routing whole shares between servers loses and repeats nothing. */
  lemma {:induction false} SharesOnce<T>(shares: seq<seq<T>>, n: nat, dest: nat -> nat)
    requires n > 0
    ensures multiset(Flatten(RouterScaleOut(shares, n, dest))) == multiset(Flatten(shares))
    decreases |shares|
  {
    hide Slot;
    if shares == [] {
      FlattenEmpty(RouterScaleOut(shares, n, dest));
    } else {
      hide RouterScaleOut;
      var k := |shares| - 1;
      SharesOnce(shares[..k], n, dest);
      InboxesExtend(shares, n, dest);
      FlattenExtend(RouterScaleOut(shares[..k], n, dest), Slot(dest(k), n), shares[k]);
    }
  }

  /** The probe as the workers of server `d` see it. */
  function ServerProbe<T>(dops: seq<nat>, device: Device, probe: Cluster<T>, dest: nat -> nat,
                          choice: nat -> nat -> nat, d: nat): Stream<T>
    requires |dops| == |probe| && d < |dops| && dops[d] > 0
  {
    DistributeProbeScaleOut(dops, device, probe, dest, choice(d), d).parts
  }

  /** One server runs the path on its shares of its inbox, with the builds of the whole cluster. */
  lemma ServerWork<T>(dops: seq<nat>, device: Device, probe: Cluster<T>, builds: seq<Cluster<T>>,
                      path: Path<T>, dest: nat -> nat, choice: nat -> nat -> nat, d: nat)
    requires Sized(dops, probe, builds) && d < |dops|
    ensures Shared(path, RouterScaleOut(Shares(probe), |probe|, dest)[d], AllShares(builds),
                   ServerProbe(dops, device, probe, dest, choice, d),
                   ServerResult(dops, device, probe, builds, path, dest, choice, d))
  {
    hide Flatten, RouterScaleOut, CollectUnpacked, DistributeBuildScaleOut, DistributeProbe;
    var inbox := RouterScaleOut(Shares(probe), |probe|, dest)[d];
    var tables := ServerBuilds(dops, device, builds, d);
    var parts := ServerProbe(dops, device, probe, dest, choice, d);
    forall j: nat, w: nat | j < |builds| && w < dops[d] ensures tables[j].parts[w] == AllShares(builds)[j] {
      BuildReachesWholeCluster(dops, device, builds[j], d, w);
    }
    SameTables(path, parts, PartsOf(tables), AllShares(builds));
    ProbeReachesOneWorker(Shaper(dops[d], device, false), MemMove(Rel([inbox], CPU, false)), choice(d));
    FlattenOne(inbox);
    var rel := RunOn(path, DistributeProbeScaleOut(dops, device, probe, dest, choice(d), d), tables);
    CollectMerges(Shaper(dops[d], device, true), rel, false, choice(d));
    FlattenOne(Flatten(rel.parts));
  }

  /** Everything sent to server 0 is at server 0. */
  lemma {:induction false} AllToZero<T>(shares: seq<seq<T>>, n: nat, d: nat)
    requires d < n
    ensures Pick(shares, n, ToServerZero(), d) == if d == 0 then shares else []
    decreases |shares|
  {
    if shares != [] {
      AllToZero(shares[..|shares| - 1], n, d);
    }
  }

  lemma FinalAtZero<T>(shares: seq<seq<T>>, n: nat)
    requires n > 0
    ensures var r := RouterScaleOut(shares, n, ToServerZero());
            r[0] == Flatten(shares) && forall d :: 0 < d < n ==> r[d] == []
  {
    forall d: nat | d < n
      ensures RouterScaleOut(shares, n, ToServerZero())[d] == if d == 0 then Flatten(shares) else []
    {
      AllToZero(shares, n, d);
    }
  }

  /** The shares of the workers of the first `k` servers. */
  function WorkerShares<T>(dops: seq<nat>, device: Device, probe: Cluster<T>, dest: nat -> nat,
                           choice: nat -> nat -> nat, k: nat): Stream<T>
    requires |dops| == |probe| && k <= |dops| && forall s :: 0 <= s < |dops| ==> dops[s] > 0
  {
    if k == 0 then []
    else
      WorkerShares(dops, device, probe, dest, choice, k - 1)
      + ServerProbe(dops, device, probe, dest, choice, k - 1)
  }

  lemma {:induction false} ServersShare<T>(
      dops: seq<nat>, device: Device, probe: Cluster<T>, builds: seq<Cluster<T>>, path: Path<T>,
      dest: nat -> nat, choice: nat -> nat -> nat, k: nat)
    requires Sized(dops, probe, builds) && k <= |dops|
    ensures Shared(path, Flatten(RouterScaleOut(Shares(probe), |probe|, dest)[..k]), AllShares(builds),
                   WorkerShares(dops, device, probe, dest, choice, k),
                   Flatten(ServerResults(dops, device, probe, builds, path, dest, choice)[..k]))
    decreases k
  {
    hide RouterScaleOut, ServerResult, ServerProbe, Shares, AllShares, Flatten, RunEach;
    var results := ServerResults(dops, device, probe, builds, path, dest, choice);
    var inboxes := RouterScaleOut(Shares(probe), |probe|, dest);
    if k == 0 {
      NothingShared(path, AllShares(builds));
      assert inboxes[..0] == [] && results[..0] == [];
    } else {
      ServersShare(dops, device, probe, builds, path, dest, choice, k - 1);
      ServerWork(dops, device, probe, builds, path, dest, choice, k - 1);
      assert results[..k] == results[..k - 1] + [results[k - 1]];
      FlattenAppend(results[..k - 1], results[k - 1]);
      assert inboxes[..k] == inboxes[..k - 1] + [inboxes[k - 1]];
      FlattenAppend(inboxes[..k - 1], inboxes[k - 1]);
      SharedConcat(path, Flatten(inboxes[..k - 1]), inboxes[k - 1], AllShares(builds),
                   WorkerShares(dops, device, probe, dest, choice, k - 1),
                   ServerProbe(dops, device, probe, dest, choice, k - 1),
                   Flatten(results[..k - 1]), results[k - 1]);
    }
  }

  /** The scale-out plan leaves nothing on the other servers, and at server 0 what the path makes of the
      whole probe shared out between all workers of the cluster: for any number of servers and workers,
      any server-to-server routing (own server, rotated or other) and any routing inside the servers. */
  lemma ScaleOutShares<T>(
      dops: seq<nat>, device: Device, probe: Cluster<T>, builds: seq<Cluster<T>>, path: Path<T>,
      packed: bool, dest: nat -> nat, choice: nat -> nat -> nat)
    requires Sized(dops, probe, builds)
    ensures var r := ParallelScaleOut(dops, device, probe, builds, path, packed, dest, choice);
            && |r.parts| == |dops| && r.on == CPU && r.local == packed
            && Shared(path, Flatten(Shares(probe)), AllShares(builds),
                      WorkerShares(dops, device, probe, dest, choice, |dops|), r.parts[0])
            && forall d :: 0 < d < |r.parts| ==> r.parts[d] == []
  {
    hide Flatten, RouterScaleOut, ServerResults, RunEach, WorkerShares;
    var n := |dops|;
    var results := ServerResults(dops, device, probe, builds, path, dest, choice);
    FinalAtZero(results, n);
    ServersShare(dops, device, probe, builds, path, dest, choice, n);
    var inboxes := RouterScaleOut(Shares(probe), n, dest);
    assert results[..n] == results && inboxes[..n] == inboxes;
    SharesOnce(Shares(probe), n, dest);
  }

  /** A share that alone is sent somewhere is all that arrives there. */
  lemma {:induction false} PickUnique<T>(shares: seq<seq<T>>, n: nat, dest: nat -> nat, w: nat, s0: nat)
    requires n > 0
    requires forall s :: 0 <= s < |shares| ==> (Slot(dest(s), n) == w <==> s == s0)
    ensures Pick(shares, n, dest, w) == if s0 < |shares| then [shares[s0]] else []
    decreases |shares|
  {
    hide Slot;
    if shares != [] {
      PickUnique(shares[..|shares| - 1], n, dest, w, s0);
    }
  }

  lemma NextSlot(s: nat, n: nat)
    requires s < n
    ensures Slot(Slot(s + 1, n), n) == if s + 1 == n then 0 else s + 1
  {
  }

  /** Under rotation every server works on exactly the share of its predecessor, under own-server
      routing on its own. */
  lemma InboxOfServer<T>(shares: seq<seq<T>>, s0: nat)
    requires s0 < |shares|
    ensures Inbox(shares, |shares|, OwnServer(), s0) == shares[s0]
    ensures Inbox(shares, |shares|, NextServer(|shares|), Slot(s0 + 1, |shares|)) == shares[s0]
  {
    var n := |shares|;
    forall s | 0 <= s < n ensures Slot(OwnServer()(s), n) == s {
      SlotOfSmall(s, n);
    }
    PickUnique(shares, n, OwnServer(), s0, s0);
    NextSlot(s0, n);
    SlotOfSmall(Slot(s0 + 1, n), n);
    forall s | 0 <= s < n
      ensures Slot(NextServer(n)(s), n) == Slot(s0 + 1, n) <==> s == s0
    {
      NextSlot(s, n);
    }
    PickUnique(shares, n, NextServer(n), Slot(s0 + 1, n), s0);
    FlattenOne(shares[s0]);
  }
}
