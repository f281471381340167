/** The evaluation_runs table and the SQL statements the API, the workers and the beat tasks
    issue against it. Every statement is given twice: as a function on the table's value, which
    the lifecycle protocol is built from, and as a method of `Database` that changes the table in
    place and is proved to compute that function. */
module RunTable {
  import opened Wrappers

  type RunId = nat     // UUIDs
  type TenantId = nat
  type AgentId = nat

  datatype Status = Pending | Running | Completed | Failed | Cancelled

  /** pending < running < the three terminal statuses. */
  function Rank(s: Status): nat {
    match s
    case Pending => 0
    case Running => 1
    case _ => 2
  }

  predicate Active(s: Status) { s == Pending || s == Running }

  const EMBEDDING_MODEL := "text-embedding-3-small"
  const MAX_ACTIVE_RUNS := 2
  const ZOMBIE_TIMEOUT_SECONDS := 300
  const ORPHAN_BATCH := 10

  /** One row. `judgments` is the `passed` column of the Judgment rows that reference the run;
      the foreign key cascades, so they are deleted with it. */
  datatype Run = Run(
    tenant: TenantId,
    agent: AgentId,
    status: Status,
    createdAt: int,
    updatedAt: int,
    startedAt: Option<int>,
    heartbeatAt: Option<int>,
    total: nat,
    passed: nat,
    failed: nat,
    avgScore: Option<real>,
    embeddingVersion: Option<string>,
    isBaseline: bool,
    judgments: seq<bool>)

  type Table = map<RunId, Run>

  function CountPassed(judgments: seq<bool>): nat {
    if judgments == [] then 0 else (if judgments[0] then 1 else 0) + CountPassed(judgments[1..])
  }

  lemma {:induction false} CountPassedAppend(a: seq<bool>, b: seq<bool>)
    ensures CountPassed(a + b) == CountPassed(a) + CountPassed(b)
    ensures CountPassed(a) <= |a|
  {
    if a == [] {
      assert a + b == b;
    } else {
      assert (a + b)[1..] == a[1..] + b;
      CountPassedAppend(a[1..], b);
    }
  }

  // ---------------------------------------------------------------- statements as functions

  /** The runs that count against a tenant's concurrency limit. */
  function ActiveRuns(runs: Table, tenant: TenantId): set<RunId> {
    set r | r in runs && runs[r].tenant == tenant && Active(runs[r].status)
  }

  /** INSERT of a fresh pending run; the columns not named keep their defaults. */
  function NewRun(tenant: TenantId, agent: AgentId, now: int): Run {
    Run(tenant, agent, Pending, now, now, None, None, 0, 0, 0, None, None, false, [])
  }

  /** UPDATE ... SET status = to WHERE id = r, with no test of the current status. */
  function Overwritten(runs: Table, r: RunId, to: Status, now: int): Table {
    if r in runs then runs[r := runs[r].(status := to, updatedAt := now)] else runs
  }

  /** UPDATE ... SET status = 'running' WHERE id = r AND status = 'pending'. */
  function Claimed(runs: Table, r: RunId, now: int): Table {
    if r in runs && runs[r].status == Pending then Overwritten(runs, r, Running, now) else runs
  }

  /** UPDATE ... SET status = to WHERE id = r AND status IN ('running', 'cancelled'). */
  function Terminated(runs: Table, r: RunId, to: Status, now: int): Table {
    if r in runs && (runs[r].status == Running || runs[r].status == Cancelled)
    then Overwritten(runs, r, to, now) else runs
  }

  /** The heartbeat's write; the status was read before, the write does not test it. */
  function Beaten(runs: Table, r: RunId, at: int, now: int): Table {
    if r in runs then runs[r := runs[r].(heartbeatAt := Some(at), updatedAt := now)] else runs
  }

  /** SQL `<`: a comparison with NULL is not true. */
  predicate Before(t: Option<int>, cutoff: int) { t.Some? && t.value < cutoff }

  /** What the sweeper's two UPDATE statements select between them. */
  predicate Zombie(run: Run, cutoff: int) {
    && run.status == Running
    && (Before(run.heartbeatAt, cutoff) || (run.heartbeatAt == None && Before(run.startedAt, cutoff)))
  }

  function SweptRow(run: Run, cutoff: int, now: int): Run {
    if Zombie(run, cutoff) then run.(status := Failed, updatedAt := now) else run
  }

  function Swept(runs: Table, cutoff: int, now: int): Table {
    map r | r in runs :: SweptRow(runs[r], cutoff, now)
  }

  /** The transaction that saves a run's results: Judgment rows and counters in SQL increments. */
  function Saved(runs: Table, r: RunId, judgments: seq<bool>, avg: Option<real>, now: int): Table {
    if r !in runs then runs else
    CountPassedAppend(judgments, []);
    var p := CountPassed(judgments);
    runs[r := runs[r].(
      passed := runs[r].passed + p,
      failed := runs[r].failed + (|judgments| - p),
      total := runs[r].total + |judgments|,
      judgments := runs[r].judgments + judgments,
      avgScore := if avg.Some? then avg else runs[r].avgScore,
      embeddingVersion := Some(EMBEDDING_MODEL),
      updatedAt := now)]
  }

  /** Clearing the pin of every run of one agent. */
  function Unpinned(runs: Table, tenant: TenantId, agent: AgentId, now: int): Table {
    map r | r in runs ::
      if runs[r].tenant == tenant && runs[r].agent == agent && runs[r].isBaseline
      then runs[r].(isBaseline := false, updatedAt := now) else runs[r]
  }

  /** The pin itself, again by id only. */
  function PinSet(runs: Table, r: RunId, now: int): Table {
    if r in runs then runs[r := runs[r].(isBaseline := true, updatedAt := now)] else runs
  }

  /** The whole pinning transaction, executed without another one for the agent in between. */
  function Pinned(runs: Table, r: RunId, now: int): Table {
    if r in runs then PinSet(Unpinned(runs, runs[r].tenant, runs[r].agent, now), r, now) else runs
  }

  predicate Pinnable(run: Run) {
    run.status == Completed && run.avgScore.Some? && run.avgScore.value >= 70.0
  }

  predicate Orphan(run: Run, cutoff: int) {
    (run.status == Failed || run.status == Cancelled) && run.updatedAt < cutoff && run.total == 0
  }

  // ---------------------------------------------------------------- statements in place

  class Database {
    var runs: Table

    constructor ()
      ensures runs == map[]
    {
      runs := map[];
    }

    /** SELECT count(id) of the tenant's active runs. */
    method CountActive(tenant: TenantId) returns (n: nat)
      ensures n == |ActiveRuns(runs, tenant)|
      ensures n == |set r | r in runs && runs[r].tenant == tenant && runs[r].status in {Pending, Running}|
    {
      var todo := runs.Keys;
      n := 0;
      ghost var found: set<RunId> := {};
      while todo != {}
        invariant todo <= runs.Keys
        invariant found == set r | r in ActiveRuns(runs, tenant) && r !in todo
        invariant n == |found|
        decreases todo
      {
        var r :| r in todo;
        todo := todo - {r};
        if runs[r].tenant == tenant && Active(runs[r].status) {
          n := n + 1;
          found := found + {r};
        }
      }
      assert found == ActiveRuns(runs, tenant);
      assert found == set r | r in runs && runs[r].tenant == tenant && runs[r].status in {Pending, Running};
    }

    /** The counting and inserting part of a create request: refuses at two active runs. */
    method CreateRun(id: RunId, tenant: TenantId, agent: AgentId, now: int) returns (created: bool)
      requires id !in runs
      modifies this
      ensures created <==> |ActiveRuns(old(runs), tenant)| < 2
      ensures runs == if created then old(runs)[id := NewRun(tenant, agent, now)] else old(runs)
    {
      var activeCount := CountActive(tenant);
      if activeCount >= MAX_ACTIVE_RUNS {
        return false;
      }
      runs := runs[id := NewRun(tenant, agent, now)];
      return true;
    }

    method Claim(r: RunId, now: int) returns (rowcount: nat)
      modifies this
      ensures runs == Claimed(old(runs), r, now)
      ensures rowcount == if r in old(runs) && old(runs)[r].status == Pending then 1 else 0
    {
      if r in runs && runs[r].status == Pending {
        runs := runs[r := runs[r].(status := Running, updatedAt := now)];
        return 1;
      }
      return 0;
    }

    method WriteTerminal(r: RunId, to: Status, now: int) returns (rowcount: nat)
      modifies this
      ensures runs == Terminated(old(runs), r, to, now)
      ensures rowcount == 0 <==> runs == old(runs) && (r !in runs || runs[r].status !in {Running, Cancelled})
    {
      if r in runs && runs[r].status in {Running, Cancelled} {
        runs := runs[r := runs[r].(status := to, updatedAt := now)];
        return 1;
      }
      return 0;
    }

    /** A cancel request after its read, and the failure branch of a create request. */
    method OverwriteStatus(r: RunId, to: Status, now: int)
      modifies this
      ensures runs == Overwritten(old(runs), r, to, now)
      ensures runs.Keys == old(runs).Keys && forall q :: q in runs && q != r ==> runs[q] == old(runs)[q]
      ensures r in runs ==> runs[r].status == to && runs[r].judgments == old(runs)[r].judgments
    {
      if r in runs {
        runs := runs[r := runs[r].(status := to, updatedAt := now)];
      }
    }

    /** A whole cancel request that no other actor interrupts. */
    method Cancel(r: RunId, tenant: TenantId, now: int) returns (code: nat)
      modifies this
      ensures code == 404 <==> r !in old(runs) || old(runs)[r].tenant != tenant
      ensures code == 400 <==> r in old(runs) && old(runs)[r].tenant == tenant && Rank(old(runs)[r].status) == 2
      ensures code in {200, 400, 404}
      ensures runs == if code == 200 then Overwritten(old(runs), r, Cancelled, now) else old(runs)
    {
      if r !in runs || runs[r].tenant != tenant {
        return 404;
      }
      if runs[r].status in {Completed, Failed, Cancelled} {
        return 400;
      }
      OverwriteStatus(r, Cancelled, now);
      return 200;
    }

    method Beat(r: RunId, at: int, now: int)
      modifies this
      ensures runs == Beaten(old(runs), r, at, now)
      ensures runs.Keys == old(runs).Keys && forall q :: q in runs && q != r ==> runs[q] == old(runs)[q]
      ensures r in runs ==> runs[r].status == old(runs)[r].status && !Zombie(runs[r], at)
    {
      if r in runs {
        runs := runs[r := runs[r].(heartbeatAt := Some(at), updatedAt := now)];
      }
    }

    /** The WHERE clauses of the sweeper's two statements. */
    method SelectZombies(cutoff: int) returns (hit: set<RunId>)
      ensures hit == (set r | r in runs && Zombie(runs[r], cutoff))
    {
      hit := {};
      var todo := runs.Keys;
      while todo != {}
        invariant todo <= runs.Keys
        invariant hit == set r | r in runs && r !in todo && Zombie(runs[r], cutoff)
        decreases todo
      {
        var r :| r in todo;
        todo := todo - {r};
        if runs[r].status == Running
           && (Before(runs[r].heartbeatAt, cutoff)
               || (runs[r].heartbeatAt == None && Before(runs[r].startedAt, cutoff))) {
          hit := hit + {r};
        }
      }
    }

    /** The sweeper: the runs whose heartbeat is stale, and those that never beat, are failed. */
    method SweepZombies(cutoff: int, now: int) returns (swept: nat)
      modifies this
      ensures runs == Swept(old(runs), cutoff, now)
      ensures swept == |set r | r in old(runs) && Zombie(old(runs)[r], cutoff)|
    {
      var hit := SelectZombies(cutoff);
      swept := |hit|;
      runs := map r | r in runs :: if r in hit then runs[r].(status := Failed, updatedAt := now) else runs[r];
    }

    /** The pinning request: eligibility, then one transaction that clears and sets the flag. */
    method SetGoldenBaseline(r: RunId, tenant: TenantId, now: int) returns (code: nat)
      modifies this
      ensures code == 404 <==> r !in old(runs) || old(runs)[r].tenant != tenant
      ensures code == 200 <==>
                && r in old(runs) && old(runs)[r].tenant == tenant && old(runs)[r].status == Completed
                && old(runs)[r].avgScore.Some? && old(runs)[r].avgScore.value >= 70.0
      ensures code in {200, 400, 404}
      ensures runs == if code == 200 then Pinned(old(runs), r, now) else old(runs)
      ensures code == 200 ==>
                runs.Keys == old(runs).Keys && runs[r] == old(runs)[r].(isBaseline := true, updatedAt := now)
      ensures code == 200 ==> forall q :: q in runs && q != r ==>
                if runs[q].tenant == tenant && runs[q].agent == runs[r].agent
                then runs[q] == old(runs)[q].(isBaseline := false, updatedAt := runs[q].updatedAt)
                else runs[q] == old(runs)[q]
    {
      if r !in runs || runs[r].tenant != tenant {
        return 404;
      }
      if runs[r].status != Completed {
        return 400;
      }
      if runs[r].avgScore == None || runs[r].avgScore.value == 0.0 || runs[r].avgScore.value < 70.0 {
        return 400;
      }
      ghost var before := runs;
      var agent := runs[r].agent;
      var todo := runs.Keys;
      while todo != {}
        invariant todo <= before.Keys && runs.Keys == before.Keys
        invariant forall q :: q in before ==>
                    runs[q] == if q in todo then before[q] else Unpinned(before, tenant, agent, now)[q]
        decreases todo
      {
        var q :| q in todo;
        todo := todo - {q};
        if runs[q].agent == agent && runs[q].tenant == tenant && runs[q].isBaseline {
          runs := runs[q := runs[q].(isBaseline := false, updatedAt := now)];
        }
      }
      assert runs == Unpinned(before, tenant, agent, now);
      runs := runs[r := runs[r].(isBaseline := true, updatedAt := now)];
      return 200;
    }

    /** The orphan query: at most ten of the matching runs, in no particular order. */
    method SelectOrphans(cutoff: int) returns (batch: set<RunId>)
      ensures forall r :: r in batch ==> r in runs && Orphan(runs[r], cutoff)
      ensures forall r :: r in batch ==>
                runs[r].status in {Failed, Cancelled} && runs[r].updatedAt < cutoff && runs[r].total == 0
      ensures |batch| <= 10
      ensures |batch| < 10 ==> forall r :: r in runs && r !in batch ==>
                runs[r].status !in {Failed, Cancelled} || runs[r].updatedAt >= cutoff || runs[r].total > 0
    {
      var todo := runs.Keys;
      batch := {};
      while todo != {} && |batch| < ORPHAN_BATCH
        invariant todo <= runs.Keys
        invariant |batch| <= ORPHAN_BATCH
        invariant batch == set r | r in runs && r !in todo && Orphan(runs[r], cutoff)
        decreases todo
      {
        var r :| r in todo;
        todo := todo - {r};
        if Orphan(runs[r], cutoff) {
          batch := batch + {r};
        }
      }
    }
  }
}
