/** The analytical query sequence: building the statements for every scheduler state, choosing the next
    state from the freshness of the data, and running the queries between snapshots and ETL. */
module HtapSchedule {
  import opened HtapEngine

  datatype Policy = Adaptive | Named(mode: Mode)

  /** How a statement reads the transactional data. */
  datatype Plugin = Local | Remote | Elastic | ElasticNI

  /** A compiled statement: the query, its plugin and its degree of parallelism. */
  datatype Stmt = Stmt(query: nat, plugin: Plugin, dop: nat)

  /** The number of a state in the enumeration. */
  function Code(mode: Mode): nat {
    match mode
    case Colocated => 0
    case Isolated => 1
    case HybridIsolated => 2
    case HybridElastic => 3
  }

  datatype Dops = Dops(colocated: nat, isolated: nat, elastic: nat)

  /** What a statement for a state must be in the adaptive sequence; co-located scans are hybrid. */
  function AdaptiveStmt(dops: Dops, mode: Mode, q: nat): Stmt {
    match mode
    case Colocated => Stmt(q, ElasticNI, dops.colocated)
    case Isolated => Stmt(q, Local, dops.isolated)
    case HybridIsolated => Stmt(q, Elastic, dops.isolated)
    case HybridElastic => Stmt(q, ElasticNI, dops.elastic)
  }

  /** Where the adaptive sequence looks for the statement of query j in a state. */
  function Index(mode: Mode, total: nat, j: nat): nat {
    j + total * Code(mode)
  }

  lemma IndexIs(mode: Mode, total: nat, j: nat)
    ensures Index(mode, total, j) ==
              match mode
              case Colocated => j
              case Isolated => total + j
              case HybridIsolated => 2 * total + j
              case HybridElastic => 3 * total + j
  {
  }

  /** Every index of a state and query is in bounds and selects that state's statement. */
  ghost predicate Laid(stmts: seq<Stmt>, total: nat, dops: Dops) {
    && |stmts| == 4 * total
    && forall j: nat, mode :: j < total ==>
         Index(mode, total, j) < |stmts| && stmts[Index(mode, total, j)] == AdaptiveStmt(dops, mode, j)
  }

  /** The loop over the queries for one state. */
  method AddBlock(stmts: seq<Stmt>, plugin: Plugin, dop: nat, queries: nat) returns (r: seq<Stmt>)
    ensures |r| == |stmts| + queries && r[..|stmts|] == stmts
    ensures forall q :: 0 <= q < queries ==> r[|stmts| + q] == Stmt(q, plugin, dop)
  {
    r := stmts;
    for q := 0 to queries
      invariant |r| == |stmts| + q && r[..|stmts|] == stmts
      invariant forall k :: 0 <= k < q ==> r[|stmts| + k] == Stmt(k, plugin, dop)
    {
      r := r + [Stmt(q, plugin, dop)];
    }
  }

  /** `setupAdaptiveSequence`: one block for each state, the queries counted once. */
  method SetupAdaptive(queries: nat, dops: Dops) returns (stmts: seq<Stmt>, total: nat)
    ensures total == queries && Laid(stmts, total, dops)
  {
    var s1 := AddBlock([], ElasticNI, dops.colocated, queries);
    total := queries;
    var s2 := AddBlock(s1, Local, dops.isolated, queries);
    var s3 := AddBlock(s2, Elastic, dops.isolated, queries);
    stmts := AddBlock(s3, ElasticNI, dops.elastic, queries);
    forall j: nat, mode | j < total
      ensures Index(mode, total, j) < |stmts| && stmts[Index(mode, total, j)] == AdaptiveStmt(dops, mode, j)
    {
      IndexIs(mode, total, j);
      assert s1[0 + j] == Stmt(j, ElasticNI, dops.colocated);
      assert s2[..total][j] == s1[j] && s3[..2 * total][j] == s2[j] && stmts[..3 * total][j] == s3[j];
      assert s3[..2 * total][total + j] == s2[total + j] && stmts[..3 * total][total + j] == s3[total + j];
      assert stmts[..3 * total][2 * total + j] == s3[2 * total + j];
    }
  }

  /** What a statement must be under a named policy: there co-located scans read remotely. */
  function NamedStmt(dops: Dops, mode: Mode, q: nat): Stmt {
    match mode
    case Colocated => Stmt(q, Remote, dops.colocated)
    case Isolated => Stmt(q, Local, dops.isolated)
    case HybridIsolated => Stmt(q, Elastic, dops.isolated)
    case HybridElastic => Stmt(q, ElasticNI, dops.elastic)
  }

  datatype Access = RemoteRead | LocalRead | HybridRead

  /** The data access that the configuration derives from a named policy. */
  function AccessOf(mode: Mode): Access {
    if mode == Colocated then RemoteRead else if mode == Isolated then LocalRead else HybridRead
  }

  /** The constructor's choice of cores and plugin under a named policy; elasticity asks for a threshold. */
  method SetupNamed(mode: Mode, queries: nat, dops: Dops, scale: nat) returns (stmts: seq<Stmt>)
    requires mode == HybridElastic ==> scale > 0
    ensures |stmts| == queries && forall q :: 0 <= q < queries ==> stmts[q] == NamedStmt(dops, mode, q)
  {
    var dop := if mode == Isolated || mode == HybridIsolated then dops.isolated
               else if mode == Colocated then dops.colocated else dops.elastic;
    var access := AccessOf(mode);
    var plugin := if access == RemoteRead || mode == Colocated then Remote
                  else if access == LocalRead || mode == Isolated then Local
                  else if (access == HybridRead && scale == 0) || mode == HybridIsolated then Elastic
                  else ElasticNI;
    stmts := AddBlock([], plugin, dop, queries);
    assert forall q :: 0 <= q < queries ==> stmts[0 + q] == Stmt(q, plugin, dop);
  }

  // Choosing the next state.

  const SIZE_MOD: nat := 0x1_0000_0000_0000_0000

  type Size = n: nat | n < SIZE_MOD

  /** Tuples known to the analytical and to the transactional side. */
  datatype Counts = Counts(olap: Size, oltp: Size)

  /** The difference is taken in unsigned arithmetic. */
  function FreshTuples(c: Counts): nat {
    (c.oltp - c.olap) % SIZE_MOD
  }

  /** The tuples the analytical side does not know yet, unless it knows more than there are. */
  lemma FreshTuplesAre(c: Counts)
    ensures FreshTuples(c) == if c.olap <= c.oltp then c.oltp - c.olap else SIZE_MOD - (c.olap - c.oltp)
  {
  }

  /** `r_fq < adaptivity_ratio * r_ft`.  Over no tuples at all r_fq is not a number or infinite, and the
      comparison fails. */
  predicate MostlyStale(c: Config, query: Counts, db: Counts) {
    var rft := if FreshTuples(db) == 0 then 0.0 else FreshTuples(query) as real / FreshTuples(db) as real;
    query.oltp != 0 && FreshTuples(query) as real / query.oltp as real < c.adaptivity * rft
  }

  function NextState(c: Config, query: Counts, db: Counts): Mode {
    if MostlyStale(c, query, db) then
      if c.scale > 0 then HybridElastic else if c.colocated > 0 then Colocated else HybridIsolated
    else Isolated
  }

  lemma DivLess(f: real, q: real, t: real, a: real)
    requires f > 0.0 && q > 0.0 && t > 0.0
    ensures f / q < a * (f / t) <==> t < a * q
  {
    var x, y := f / q, f / t;
    assert x * q == f && y * t == f;
    assert x > 0.0 && y > 0.0;
    if t < a * q {
      assert y * t < y * (a * q);
      assert x * q < (a * y) * q;
      assert x < a * y;
    } else {
      assert y * t >= y * (a * q);
      assert x * q >= (a * y) * q;
      assert x >= a * y;
    }
  }

  // Running the sequence.

  /** One executed statement: when, which, in which state, and the numbers of the latest snapshot and of
      the snapshot at the latest ETL. */
  datatype Run = Run(round: nat, query: nat, mode: Mode, stmt: Stmt, snapshot: nat, etl: int)

  /** The freshness the engine reports and whether the ETL interval has passed, for each round and
      query. */
  datatype World = World(query: (nat, nat) -> Counts, db: (nat, nat) -> Counts,
                         roundDue: nat -> bool, queryDue: (nat, nat) -> bool)

  /** The query reads fresh tuples, and all the fresh tuples are fewer than the configured fraction of the
      tuples it reads. */
  predicate LittleFresh(c: Config, query: Counts, db: Counts) {
    query.olap != query.oltp && query.oltp > 0 && db.olap != db.oltp
    && FreshTuples(db) as real < c.adaptivity * query.oltp as real
  }

  /** The scheduler leaves isolation exactly if little of what the query reads is fresh. */
  lemma LeavesIsolationIff(c: Config, query: Counts, db: Counts)
    ensures NextState(c, query, db) != Isolated <==> LittleFresh(c, query, db)
  {
    var f, t := FreshTuples(query), FreshTuples(db);
    FreshTuplesAre(query);
    FreshTuplesAre(db);
    if query.oltp > 0 && f > 0 && t > 0 {
      DivLess(f as real, query.oltp as real, t as real, c.adaptivity);
    }
  }

  /** The state in which a query runs: that of the policy, or isolation unless little of what it reads is
      fresh, and then the one that the thresholds allow. */
  ghost predicate Chosen(c: Config, policy: Policy, world: World, r: Run) {
    match policy
    case Named(m) => r.mode == m
    case Adaptive =>
      && (r.mode != Isolated <==> LittleFresh(c, world.query(r.round, r.query), world.db(r.round, r.query)))
      && (r.mode == HybridElastic ==> c.scale > 0)
      && (r.mode == Colocated ==> c.scale == 0 && c.colocated > 0)
      && (r.mode == HybridIsolated ==> c.scale == 0 && c.colocated == 0)
  }

  ghost predicate RightStmt(policy: Policy, dops: Dops, r: Run) {
    match policy
    case Adaptive => r.stmt == AdaptiveStmt(dops, r.mode, r.query)
    case Named(m) => r.stmt == NamedStmt(dops, m, r.query)
  }

  /** What is promised of every executed statement: it is the one for its query and state, and if it
      reads analytical data only, ETL ran since the latest snapshot. */
  ghost predicate Good(c: Config, policy: Policy, dops: Dops, world: World, r: Run) {
    && Chosen(c, policy, world, r)
    && RightStmt(policy, dops, r)
    && (r.stmt.plugin == Local ==> r.etl == r.snapshot)
  }

  /** With a snapshot for each query, every statement sees its own; otherwise all of a round share
      one. */
  ghost predicate Numbered(runs: seq<Run>, perQuery: bool, start: nat) {
    forall n :: 0 <= n < |runs| ==>
      runs[n].snapshot == start + 1 + if perQuery then n else runs[n].round
  }

  /** How many statements run before round i. */
  function Before(i: nat, total: nat): nat {
    i * total
  }

  lemma BeforeNext(i: nat, total: nat)
    ensures Before(0, total) == 0 && Before(i + 1, total) == Before(i, total) + total
  {
  }

  /** The queries of a round run in order, rounds one after the other. */
  ghost predicate InOrder(runs: seq<Run>, total: nat) {
    forall n :: 0 <= n < |runs| ==>
      runs[n].query < total && n == Before(runs[n].round, total) + runs[n].query
  }

  /** The state before the next query: that of the last one, or the one `execute` starts in. */
  function LastMode(runs: seq<Run>, policy: Policy): Mode {
    if runs != [] then runs[|runs| - 1].mode else if policy.Named? then policy.mode else Isolated
  }

  function LastEtl(runs: seq<Run>, etl: int): int {
    if runs != [] then runs[|runs| - 1].etl else etl
  }

  /** ETL runs at the start of a round that shares one snapshot. */
  predicate RoundEtl(policy: Policy, world: World, perQuery: bool, last: Mode, i: nat) {
    !perQuery && (last.Isolated? || (policy != Named(Colocated) && world.roundDue(i)))
  }

  /** ETL runs for a query that has its own snapshot. */
  predicate QueryEtl(policy: Policy, world: World, perQuery: bool, i: nat, j: nat) {
    perQuery && policy != Named(Isolated) && policy != Named(Colocated) && world.queryDue(i, j)
  }

  /** ETL ran between the statements before and this one. */
  predicate Extracted(before: seq<Run>, policy: Policy, world: World, perQuery: bool, r: Run) {
    || r.mode.Isolated?
    || QueryEtl(policy, world, perQuery, r.round, r.query)
    || (r.query == 0 && RoundEtl(policy, world, perQuery, LastMode(before, policy), r.round))
  }

  /** The data of a statement is that of the latest snapshot if ETL ran for it, and otherwise that of the
      statement before. */
  ghost predicate Extracts(before: seq<Run>, policy: Policy, world: World, perQuery: bool, etl: int, r: Run) {
    r.etl == if Extracted(before, policy, world, perQuery, r) then r.snapshot else LastEtl(before, etl)
  }

  /** What is fixed during a run: the configuration, the policy, the number of queries, the statements, and
      the numbers of the latest snapshot and ETL before it. */
  datatype Setup = Setup(c: Config, policy: Policy, total: nat, dops: Dops, world: World, perQuery: bool,
                         start: nat, etl: int)

  ghost predicate Log(runs: seq<Run>, u: Setup) {
    && InOrder(runs, u.total)
    && Numbered(runs, u.perQuery, u.start)
    && forall n :: 0 <= n < |runs| ==>
         && Good(u.c, u.policy, u.dops, u.world, runs[n])
         && Extracts(runs[..n], u.policy, u.world, u.perQuery, u.etl, runs[n])
  }

  lemma LogGrows(runs: seq<Run>, run: Run, u: Setup)
    requires Log(runs, u) && Good(u.c, u.policy, u.dops, u.world, run)
    requires Extracts(runs, u.policy, u.world, u.perQuery, u.etl, run)
    requires run.query < u.total && |runs| == Before(run.round, u.total) + run.query
    requires run.snapshot == u.start + 1 + if u.perQuery then |runs| else run.round
    ensures Log(runs + [run], u)
  {
    hide Good, Before, Extracts;
    var more := runs + [run];
    forall n | 0 <= n < |more|
      ensures Good(u.c, u.policy, u.dops, u.world, more[n])
           && Extracts(more[..n], u.policy, u.world, u.perQuery, u.etl, more[n])
    {
      assert more[..n] == runs[..n];
      assert runs[..|runs|] == runs;
    }
  }

  ghost predicate Statements(policy: Policy, stmts: seq<Stmt>, total: nat, dops: Dops) {
    match policy
    case Adaptive => Laid(stmts, total, dops)
    case Named(m) =>
      |stmts| == total && forall q :: 0 <= q < total ==> stmts[q] == NamedStmt(dops, m, q)
  }

  method PickStmt(policy: Policy, stmts: seq<Stmt>, total: nat, ghost dops: Dops, mode: Mode, j: nat)
    returns (stmt: Stmt)
    requires Statements(policy, stmts, total, dops) && j < total
    ensures policy.Adaptive? ==> stmt == AdaptiveStmt(dops, mode, j)
    ensures policy.Named? ==> stmt == NamedStmt(dops, policy.mode, j)
  {
    if policy.Adaptive? {
      stmt := stmts[Index(mode, total, j)];
    } else {
      stmt := stmts[j];
    }
  }

  /** One query of a round: snapshot and ETL if they are per query, the choice of the state, the ETL that
      isolation always does, and the statement. */
  method RunQuery(e: Engine, policy: Policy, stmts: seq<Stmt>, total: nat, ghost dops: Dops,
                  perQuery: bool, world: World, curr: Mode, i: nat, j: nat)
    returns (mode: Mode, run: Run)
    requires e.In(curr) && (policy.Named? ==> curr == policy.mode)
    requires e.conf.colocated / 2 <= e.conf.pool / 2
    requires Statements(policy, stmts, total, dops) && j < total
    modifies e
    ensures e.In(mode)
    ensures Good(e.conf, policy, dops, world, run) && run.mode == mode
    ensures e.snapshots == old(e.snapshots) + if perQuery then 1 else 0
    ensures run.round == i && run.query == j && run.snapshot == e.snapshots && run.etl == e.lastEtl
    ensures e.lastEtl == if mode.Isolated? || QueryEtl(policy, world, perQuery, i, j) then e.snapshots
                         else old(e.lastEtl)
  {
    if perQuery {
      e.Snapshot();
      if policy != Named(Isolated) && policy != Named(Colocated) && world.queryDue(i, j) {
        e.Etl();
      }
    }
    mode := curr;
    if policy.Adaptive? {
      mode := e.MigrateState(curr, NextState(e.conf, world.query(i, j), world.db(i, j)));
      LeavesIsolationIff(e.conf, world.query(i, j), world.db(i, j));
    }
    if mode.Isolated? {
      e.Etl();
    }
    var stmt := PickStmt(policy, stmts, total, dops, mode, j);
    run := Run(i, j, mode, stmt, e.snapshots, e.lastEtl);
  }

  /** The number of the latest ETL before query j of round i. */
  function HeldEtl(runs: seq<Run>, u: Setup, i: nat, j: nat): int {
    if j == 0 && RoundEtl(u.policy, u.world, u.perQuery, LastMode(runs, u.policy), i) then u.start + 1 + i
    else LastEtl(runs, u.etl)
  }

  /** The queries of one round. */
  method RunRound(e: Engine, policy: Policy, stmts: seq<Stmt>, total: nat, ghost dops: Dops,
                  perQuery: bool, world: World, curr: Mode, i: nat, past: seq<Run>, ghost u: Setup)
    returns (mode: Mode, runs: seq<Run>)
    requires u == Setup(e.conf, policy, total, dops, world, perQuery, u.start, u.etl)
    requires e.In(curr) && curr == LastMode(past, policy) && (policy.Named? ==> curr == policy.mode)
    requires e.conf.colocated / 2 <= e.conf.pool / 2
    requires Statements(policy, stmts, total, dops)
    requires Log(past, u) && |past| == Before(i, total)
    requires e.snapshots == u.start + if perQuery then |past| else i + 1
    requires total > 0 ==> e.lastEtl == HeldEtl(past, u, i, 0)
    modifies e
    ensures e.In(mode) && mode == LastMode(runs, policy) && (policy.Named? ==> mode == policy.mode)
    ensures Log(runs, u) && |runs| == |past| + total
    ensures e.snapshots == u.start + if perQuery then |runs| else i + 1
    ensures total > 0 ==> e.lastEtl == LastEtl(runs, u.etl)
  {
    hide Log, Before, Statements, Good;
    mode, runs := curr, past;
    for j := 0 to total
      invariant e.In(mode) && mode == LastMode(runs, policy) && (policy.Named? ==> mode == policy.mode)
      invariant Log(runs, u) && |runs| == |past| + j
      invariant e.snapshots == u.start + if perQuery then |runs| else i + 1
      invariant total > 0 ==> e.lastEtl == HeldEtl(runs, u, i, j)
    {
      var run;
      mode, run := RunQuery(e, policy, stmts, total, dops, perQuery, world, mode, i, j);
      GoodMode(e.conf, policy, dops, world, run);
      LogGrows(runs, run, u);
      runs := runs + [run];
    }
  }

  lemma GoodMode(c: Config, policy: Policy, dops: Dops, world: World, r: Run)
    requires Good(c, policy, dops, world, r)
    ensures policy.Named? ==> r.mode == policy.mode
  {
  }

  /** The snapshot that a round shares, and its ETL. */
  method StartRound(e: Engine, policy: Policy, perQuery: bool, world: World, curr: Mode, i: nat)
    modifies e`snapshots, e`lastEtl
    ensures e.snapshots == old(e.snapshots) + if perQuery then 0 else 1
    ensures e.lastEtl == if RoundEtl(policy, world, perQuery, curr, i) then e.snapshots else old(e.lastEtl)
  {
    if !perQuery {
      e.Snapshot();
      if curr.Isolated? || (policy != Named(Colocated) && world.roundDue(i)) {
        e.Etl();
      }
    }
  }

  /** `execute` after the warm-up, on an engine that is set up for isolation. */
  method Execute(e: Engine, policy: Policy, stmts: seq<Stmt>, total: nat, ghost dops: Dops,
                 repeat: nat, perQuery: bool, world: World) returns (mode: Mode, runs: seq<Run>)
    requires e.In(Isolated) && e.conf.colocated / 2 <= e.conf.pool / 2
    requires Statements(policy, stmts, total, dops)
    modifies e
    ensures e.In(mode) && mode == LastMode(runs, policy)
    ensures |runs| == Before(repeat, total)
    ensures Log(runs, Setup(e.conf, policy, total, dops, world, perQuery, old(e.snapshots), old(e.lastEtl)))
  {
    mode, runs := Isolated, [];
    if policy.Named? {
      mode := e.MigrateState(mode, policy.mode);
    }
    BeforeNext(0, total);
    ghost var u := Setup(e.conf, policy, total, dops, world, perQuery, old(e.snapshots), old(e.lastEtl));
    hide Before, Statements, Good, RoundEtl;
    assert Log(runs, u);
    hide Log;
    for i := 0 to repeat
      invariant e.In(mode) && mode == LastMode(runs, policy) && (policy.Named? ==> mode == policy.mode)
      invariant |runs| == Before(i, total)
      invariant Log(runs, u)
      invariant e.snapshots == old(e.snapshots) + if perQuery then |runs| else i
      invariant total > 0 ==> e.lastEtl == LastEtl(runs, u.etl)
    {
      StartRound(e, policy, perQuery, world, mode, i);
      BeforeNext(i, total);
      mode, runs := RunRound(e, policy, stmts, total, dops, perQuery, world, mode, i, runs, u);
    }
  }
}
