/** The transactional engine as the analytical scheduler sees it: workers that are moved to the other
    socket and back, cores given up and taken back, snapshots and ETL; and the scheduler's four states. */
module HtapEngine {
  import opened Sequences

  datatype Mode = Colocated | Isolated | HybridIsolated | HybridElastic

  /** The thresholds of the configuration and the layout of the worker pool. */
  datatype Config = Config(adaptivity: real, scale: nat, colocated: nat, pool: nat, htPair: nat,
                           reverseMapping: bool)

  /** The first `n` numbers from `from` on. */
  function Span(from: nat, n: nat): (s: set<nat>)
    ensures forall i: nat :: i in s <==> from <= i < from + n
  {
    if n == 0 then {} else Span(from, n - 1) + {from + n - 1}
  }

  /** The workers moved by `n` migrations: worker after worker, each with its hyper-thread sibling when
      partitions are mapped in reverse. */
  function Moved(c: Config, n: nat): set<nat> {
    Span(0, n) + if c.reverseMapping then Span(c.htPair, n) else {}
  }

  function MovedWorker(c: Config, w: nat): set<nat> {
    {w} + if c.reverseMapping then {w + c.htPair} else {}
  }

  /** By `n` migrations the first `n` workers are moved, and with them their siblings under reverse mapping. */
  lemma MovedIff(c: Config, n: nat, x: nat)
    ensures x in Moved(c, n) <==> x < n || (c.reverseMapping && c.htPair <= x < c.htPair + n)
  {
  }

  lemma MoverOf(c: Config, n: nat, x: nat) returns (w: nat)
    requires x in Moved(c, n)
    ensures w < n && x in MovedWorker(c, w)
  {
    w := if x < n then x else x - c.htPair;
  }

  /** The cores given up in `n` rounds, pair by pair. */
  function GivenUp(c: Config, n: nat): seq<nat> {
    if n == 0 then [] else GivenUp(c, n - 1) + [n - 1, n - 1 + c.htPair]
  }

  /** The loop of `scale_down` counts in twos and stops on equality only. */
  function Rounds(threshold: nat): nat {
    if threshold % 2 == 0 then threshold / 2 else threshold + 1
  }

  lemma {:induction false} GivenUpLength(c: Config, n: nat)
    ensures |GivenUp(c, n)| == 2 * n
  {
    if n > 0 {
      GivenUpLength(c, n - 1);
    }
  }

  /** Round `k` gives up the core `k` of the second half and its sibling. */
  lemma {:induction false} GivenUpAt(c: Config, n: nat, k: nat)
    requires k < n
    ensures |GivenUp(c, n)| == 2 * n && GivenUp(c, n)[2 * k] == k && GivenUp(c, n)[2 * k + 1] == k + c.htPair
    decreases n
  {
    GivenUpLength(c, n - 1);
    if k < n - 1 {
      GivenUpAt(c, n - 1, k);
    }
  }

  /** No core is given up twice exactly if the rounds do not reach the siblings. */
  lemma GivenUpOnceIff(c: Config, n: nat)
    ensures Distinct(GivenUp(c, n)) <==> n <= c.htPair
  {
    var g := GivenUp(c, n);
    GivenUpLength(c, n);
    forall i | 0 <= i < |g| ensures g[i] == i / 2 + (if i % 2 == 0 then 0 else c.htPair) {
      GivenUpAt(c, n, i / 2);
    }
    if n > c.htPair {
      var i, j := 2 * c.htPair, 1;
      assert g[i] == g[j] && i != j;
    }
  }

  /** Scaling down gives up as many cores as it is told to exactly for an even threshold. */
  lemma ScaleIff(c: Config, threshold: nat)
    ensures |GivenUp(c, Rounds(threshold))| == threshold <==> threshold % 2 == 0
  {
    GivenUpLength(c, Rounds(threshold));
  }

  class Engine {
    const conf: Config
    /** The toggle of `migrate_worker`; it is handed on as the request to return. */
    var returnBack: bool
    var workerNum: nat
    var moved: set<nat>
    var elastic: seq<nat>
    /** Whether some worker was told to terminate. */
    var terminated: bool
    var snapshots: nat
    /** The number of the snapshot at the latest ETL. */
    var lastEtl: int

    constructor (c: Config)
      ensures conf == c && In(Isolated) && !terminated && snapshots == 0 && lastEtl == -1
    {
      conf := c;
      returnBack, workerNum, moved, elastic, terminated := false, 0, {}, [], false;
      snapshots, lastEtl := 0, -1;
    }

    /** The engine is set up for a scheduler state: its workers are away exactly in S1, it has given up
        cores exactly in S3-NI, and the toggle agrees. */
    ghost predicate In(mode: Mode)
      reads this
    {
      && returnBack == mode.Colocated?
      && workerNum == (if mode.Colocated? then conf.colocated / 2 else 0)
      && moved == Moved(conf, workerNum)
      && elastic == (if mode.HybridElastic? then GivenUp(conf, Rounds(conf.scale)) else [])
    }

    method Snapshot()
      modifies this`snapshots
      ensures snapshots == old(snapshots) + 1
    {
      snapshots := snapshots + 1;
    }

    method Etl()
      modifies this`lastEtl
      ensures lastEtl == snapshots
    {
      lastEtl := snapshots;
    }

    /** One call of the worker pool. */
    method MigrateOne(back: bool)
      requires workerNum <= conf.pool / 2
      requires back ==> workerNum > 0
      modifies this`workerNum, this`moved
      ensures !back ==> workerNum == old(workerNum) + 1
                        && moved == old(moved) + MovedWorker(conf, old(workerNum))
      ensures back ==> workerNum == old(workerNum) - 1 && moved == old(moved) - MovedWorker(conf, workerNum)
    {
      if !back {
        moved := moved + MovedWorker(conf, workerNum);
        workerNum := workerNum + 1;
      } else {
        moved := moved - MovedWorker(conf, workerNum - 1);
        workerNum := workerNum - 1;
      }
    }

    /** Moves all workers there, or all of them back, by turns. */
    method MigrateWorkers(n: nat)
      requires n / 2 <= conf.pool / 2
      requires returnBack ==> workerNum == n / 2 && moved == Moved(conf, n / 2)
      requires !returnBack ==> workerNum == 0 && moved == {}
      modifies this`returnBack, this`workerNum, this`moved
      ensures returnBack != old(returnBack)
      ensures workerNum == (if returnBack then n / 2 else 0) && moved == Moved(conf, workerNum)
    {
      for i := 0 to n / 2
        invariant returnBack == old(returnBack)
        invariant !returnBack ==> workerNum == i && moved == Moved(conf, i)
        invariant returnBack ==> workerNum == n / 2 - i && moved <= Moved(conf, n / 2)
        invariant returnBack ==> forall w :: workerNum <= w < n / 2 ==> moved !! MovedWorker(conf, w)
      {
        MigrateOne(returnBack);
      }
      returnBack := !returnBack;
      forall x | x in Moved(conf, n / 2) && !returnBack ensures x !in moved {
        var w := MoverOf(conf, n / 2, x);
      }
    }

    /** Tells pairs of workers to terminate and notes their cores. */
    method ScaleDown(n: nat)
      modifies this`elastic, this`terminated
      ensures elastic == old(elastic) + GivenUp(conf, Rounds(n))
      ensures terminated == (old(terminated) || n > 0)
    {
      var ctr, ci := 0, 0;
      while ci <= n
        invariant 0 <= ci <= n + 1 && ctr == 2 * ci
        invariant n % 2 == 0 ==> ci <= n / 2
        invariant elastic == old(elastic) + GivenUp(conf, ci)
        invariant terminated == (old(terminated) || ci > 0)
        decreases n + 1 - ci
      {
        if ctr == n {
          break;
        }
        elastic := elastic + [ci, ci + conf.htPair];
        terminated := true;
        ctr, ci := ctr + 2, ci + 1;
      }
    }

    /** Takes the cores back.  It resumes paused workers; those that were told to terminate stay so. */
    method ScaleBack()
      modifies this`elastic
      ensures elastic == []
    {
      elastic := [];
    }

    /** `migrateState`. */
    method MigrateState(curr: Mode, to: Mode) returns (next: Mode)
      requires In(curr) && conf.colocated / 2 <= conf.pool / 2
      modifies this`returnBack, this`workerNum, this`moved, this`elastic, this`terminated
      ensures next == to && In(to)
      ensures terminated == (old(terminated) || (to.HybridElastic? && !curr.HybridElastic? && conf.scale > 0))
    {
      if curr == to {
        return curr;
      }
      if (curr == Isolated && to == HybridIsolated) || (to == Isolated && curr == HybridIsolated) {
        return to;
      }
      if (curr == Isolated || curr == HybridIsolated) && (to == HybridElastic || to == Colocated) {
        if to == Colocated {
          MigrateWorkers(conf.colocated);
        } else {
          ScaleDown(conf.scale);
        }
      } else if (curr == HybridElastic || curr == Colocated) && (to == Isolated || to == HybridIsolated) {
        if curr == Colocated {
          MigrateWorkers(conf.colocated);
        } else {
          ScaleBack();
        }
      } else if curr == HybridElastic && to == Colocated {
        ScaleBack();
        MigrateWorkers(conf.colocated);
      } else if curr == Colocated && to == HybridElastic {
        MigrateWorkers(conf.colocated);
        ScaleDown(conf.scale);
      } else {
        assert false;
      }
      return to;
    }

    /** Any sequence of migrations leaves the engine set up for the last state; a worker has been told
        to terminate exactly if cores were ever given up, and taking them back does not undo it. */
    method MigrateThrough(path: seq<Mode>) returns (last: Mode)
      requires In(Isolated) && !terminated && conf.colocated / 2 <= conf.pool / 2
      modifies this`returnBack, this`workerNum, this`moved, this`elastic, this`terminated
      ensures last == (if path == [] then Isolated else path[|path| - 1]) && In(last)
      ensures terminated <==> conf.scale > 0 && HybridElastic in path
    {
      last := Isolated;
      for i := 0 to |path|
        invariant In(last) && last == (if i == 0 then Isolated else path[i - 1])
        invariant terminated <==> conf.scale > 0 && HybridElastic in path[..i]
      {
        last := MigrateState(last, path[i]);
        assert path[..i + 1] == path[..i] + [path[i]];
      }
      assert path[..|path|] == path;
    }
  }
}
