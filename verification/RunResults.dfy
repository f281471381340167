/** From the graph to the run's row: the results the simulate and judge nodes return, folded in by the
    worker and saved by the join on storage keys, in one statement. */
module RunResults {
  import opened Wrappers
  import opened EvaluationState
  import opened EvaluationGraph
  import opened TracePipeline
  import P = Persistence
  import T = RunTable

  /** The simulate and judge nodes write their own list only, at no negative cost. */
  lemma NodesWriteTheirOwn(ss: seq<Scenario>, rs: seq<SimResult>, tenant: string, run: string, s: State,
                           vs: seq<Verdict>)
    requires |ss| == |rs| && |vs| == |Unjudged(s.traces, s.judgments)|
    requires forall k :: 0 <= k < |vs| ==> ValidVerdict(vs[k])
    ensures WritesItsOwn(Simulate, SimulateUpdate(ss, rs, tenant, run))
    ensures WritesItsOwn(Judge, JudgeUpdate(s, vs))
  {
    CostIsNonNegative(Unjudged(s.traces, s.judgments), vs, s.scenarios);
  }

  lemma {:induction false} CostIsNonNegative(ts: seq<Trace>, vs: seq<Verdict>, scenarios: seq<Scenario>)
    requires |ts| == |vs| && forall k :: 0 <= k < |vs| ==> ValidVerdict(vs[k])
    ensures JudgeAll(ts, vs, scenarios).cost >= 0.0
  {
    if ts != [] {
      CostIsNonNegative(ts[..|ts| - 1], vs[..|vs| - 1], scenarios);
      assert ValidVerdict(vs[|vs| - 1]);
    }
  }

  /** An execution that got as far as judging, in which the simulate and judge nodes return what their
      loops compute and the other nodes write their own fields. */
  ghost predicate IsRun(v: seq<Visit>, budget: real, outcome: Node -> Update, rs: seq<SimResult>, vs: seq<Verdict>,
                        tenant: string, run: string) {
    && IsExecution(v, Generate, INITIAL, budget, outcome) && |v| >= 3
    && (forall i :: 0 <= i < |v| && i != 1 && i != 2 ==> WritesItsOwn(v[i].node, v[i].update))
    && |rs| == |v[0].after.scenarios|
    && v[1].update == SimulateUpdate(v[0].after.scenarios, rs, tenant, run)
    && |vs| == |Unjudged(v[2].before.traces, v[2].before.judgments)|
    && v[2].update == JudgeUpdate(v[2].before, vs)
    && (forall k :: 0 <= k < |vs| ==> ValidVerdict(vs[k]))
  }

  lemma EveryNodeWritesItsOwn(v: seq<Visit>, budget: real, outcome: Node -> Update, rs: seq<SimResult>,
                              vs: seq<Verdict>, tenant: string, run: string)
    requires IsRun(v, budget, outcome, rs, vs, tenant, run)
    ensures forall i :: 0 <= i < |v| ==> WritesItsOwn(v[i].node, v[i].update)
  {
    NodesWriteTheirOwn(v[0].after.scenarios, rs, tenant, run, v[2].before, vs);
    Prefix(v, budget);
    assert ORDER[1] == Simulate && ORDER[2] == Judge;
  }

  /** The traces and judgments in the graph's state, from the judge node on. */
  lemma {:induction false} GraphResults(v: seq<Visit>, budget: real, outcome: Node -> Update, rs: seq<SimResult>,
                                        vs: seq<Verdict>, tenant: string, run: string, n: nat)
    requires IsRun(v, budget, outcome, rs, vs, tenant, run) && 3 <= n <= |v|
    ensures var ss := v[0].after.scenarios;
      && |vs| == |TracesOf(ss, rs, tenant, run)|
      && v[n - 1].after.traces == TracesOf(ss, rs, tenant, run)
      && v[n - 1].after.judgments == JudgeAll(TracesOf(ss, rs, tenant, run), vs, ss).judgments
  {
    EveryNodeWritesItsOwn(v, budget, outcome, rs, vs, tenant, run);
    if n == 3 {
      FirstThree(v, budget, outcome, rs, vs, tenant, run);
    } else {
      GraphResults(v, budget, outcome, rs, vs, tenant, run, n - 1);
      PositionIs(v, budget, n - 1);
      assert Follows(v, n - 1, budget);
    }
  }

  /** What the judge node finds. */
  lemma {:induction false} BeforeJudging(v: seq<Visit>, budget: real, outcome: Node -> Update, rs: seq<SimResult>,
                                         vs: seq<Verdict>, tenant: string, run: string)
    requires IsRun(v, budget, outcome, rs, vs, tenant, run)
    ensures var s := v[2].before;
      && s.scenarios == v[0].after.scenarios && s.judgments == []
      && s.traces == TracesOf(v[0].after.scenarios, rs, tenant, run)
  {
    EveryNodeWritesItsOwn(v, budget, outcome, rs, vs, tenant, run);
    AccumulatorKeepsResults(v, budget, outcome, 1);
    AccumulatorKeepsResults(v, budget, outcome, 2);
    assert Follows(v, 1, budget) && Follows(v, 2, budget);
  }

  lemma {:induction false} JudgedState(s: State, vs: seq<Verdict>)
    requires s.judgments == [] && |vs| == |Unjudged(s.traces, s.judgments)|
    ensures |vs| == |s.traces|
    ensures Merge(s, JudgeUpdate(s, vs)).traces == s.traces
    ensures Merge(s, JudgeUpdate(s, vs)).judgments == JudgeAll(s.traces, vs, s.scenarios).judgments
  {
    AllUnjudgedAtFirst(s.traces);
  }

  /** What the judge node adds to the graph's cost and turns. */
  lemma {:induction false} JudgingCosts(v: seq<Visit>, budget: real, outcome: Node -> Update, rs: seq<SimResult>,
                                        vs: seq<Verdict>, tenant: string, run: string)
    requires IsRun(v, budget, outcome, rs, vs, tenant, run)
    ensures var ts := TracesOf(v[0].after.scenarios, rs, tenant, run);
      && |vs| == |ts|
      && v[1].after.cost == v[0].after.cost && v[1].after.turns == v[0].after.turns + |rs|
      && v[2].after.cost == v[1].after.cost + Charges(ts, vs, v[0].after.scenarios)
      && v[2].after.turns == v[1].after.turns + |ts|
  {
    BeforeJudging(v, budget, outcome, rs, vs, tenant, run);
    AllUnjudgedAtFirst(v[2].before.traces);
    CostIsTheCharges(v[2].before.traces, vs, v[2].before.scenarios);
    assert Follows(v, 1, budget) && Follows(v, 2, budget);
  }

  lemma {:induction false} FirstThree(v: seq<Visit>, budget: real, outcome: Node -> Update, rs: seq<SimResult>,
                                      vs: seq<Verdict>, tenant: string, run: string)
    requires IsRun(v, budget, outcome, rs, vs, tenant, run)
    ensures var ss := v[0].after.scenarios;
      && |vs| == |TracesOf(ss, rs, tenant, run)|
      && v[2].after.traces == TracesOf(ss, rs, tenant, run)
      && v[2].after.judgments == JudgeAll(TracesOf(ss, rs, tenant, run), vs, ss).judgments
  {
    BeforeJudging(v, budget, outcome, rs, vs, tenant, run);
    JudgedState(v[2].before, vs);
    assert Follows(v, 2, budget);
  }

  /** The `passed` column of the rows. */
  function Flags(rows: seq<P.JudgmentRow>): seq<bool> {
    if rows == [] then [] else Flags(rows[..|rows| - 1]) + [rows[|rows| - 1].passed]
  }

  lemma {:induction false} FlagsCount(rows: seq<P.JudgmentRow>)
    ensures |Flags(rows)| == |rows| && T.CountPassed(Flags(rows)) == P.Passes(rows)
  {
    if rows != [] {
      FlagsCount(rows[..|rows| - 1]);
      T.CountPassedAppend(Flags(rows[..|rows| - 1]), [rows[|rows| - 1].passed]);
      assert [rows[|rows| - 1].passed][1..] == [];
    }
  }

  method CollectFlags(rows: seq<P.JudgmentRow>) returns (flags: seq<bool>)
    ensures flags == Flags(rows)
  {
    flags := [];
    for i := 0 to |rows|
      invariant flags == Flags(rows[..i])
    {
      assert rows[..i + 1][..i] == rows[..i];
      flags := flags + [rows[i].passed];
    }
    assert rows[..|rows|] == rows;
  }

  /** What the saving method computes is what the lifecycle's saving transaction writes: its counters
      are the table's, whatever traces and judgments it is given. */
  method SaveResults(ts: seq<Trace>, js: seq<Judgment>, runs: T.Table, r: T.RunId, now: int) returns (after: T.Table)
    requires r in runs
    ensures var rows := P.RowsOf(js, P.ByKey(ts));
      && var avg := if rows == [] then None else Some(P.Total(rows) / |rows| as real);
      && after == T.Saved(runs, r, Flags(rows), avg, now)
  {
    var saved := P.PersistFinalState(ts, js);
    var flags := CollectFlags(saved.rows);
    FlagsCount(saved.rows);
    var row := runs[r];
    after := runs[r := row.(passed := row.passed + saved.passed, failed := row.failed + saved.failed,
                            total := row.total + (saved.passed + saved.failed), judgments := row.judgments + flags,
                            avgScore := if saved.avg.Some? then saved.avg else row.avgScore,
                            embeddingVersion := Some(T.EMBEDDING_MODEL), updatedAt := now)];
  }

  /** The whole chain. After any number of events from the judge node on, what the worker has
      accumulated is joined to one row per trace (the rows of the simulated and judged scenarios), the
      saved average lies in [0, 100], and the counters grow by the passed and failed rows. */
  lemma {:induction false} SavedRunIsTheGraphs(v: seq<Visit>, budget: real, outcome: Node -> Update, rs: seq<SimResult>,
                                               vs: seq<Verdict>, tenant: string, run: string, n: nat,
                                               runs: T.Table, r: T.RunId, now: int)
    requires IsRun(v, budget, outcome, rs, vs, tenant, run) && 3 <= n <= |v| && r in runs
    ensures |vs| == |TracesOf(v[0].after.scenarios, rs, tenant, run)|
    ensures var acc := Accumulated(v[..n]);
      var rows := P.RowsOf(acc.judgments, P.ByKey(acc.traces));
      var avg := if rows == [] then None else Some(P.Total(rows) / |rows| as real);
      var row := T.Saved(runs, r, Flags(rows), avg, now)[r];
      && rows == P.Rows(v[0].after.scenarios, rs, vs, tenant, run)
      && |rows| == |acc.traces|
      && (avg.Some? ==> row.avgScore == avg && 0.0 <= avg.value <= 100.0)
      && row.total == runs[r].total + |acc.traces|
      && row.passed == runs[r].passed + P.Passes(rows)
      && row.failed == runs[r].failed + (|rows| - P.Passes(rows))
  {
    EveryNodeWritesItsOwn(v, budget, outcome, rs, vs, tenant, run);
    AccumulatorKeepsResults(v, budget, outcome, n);
    GraphResults(v, budget, outcome, rs, vs, tenant, run, n);
    var ss := v[0].after.scenarios;
    P.RowsLineUp(ss, rs, vs, tenant, run);
    P.AverageInRange(ss, rs, vs, tenant, run);
    FlagsCount(P.Rows(ss, rs, vs, tenant, run));
  }

  /** Before the judge node the worker has no judgments to save. */
  lemma {:induction false} NothingJudgedYet(v: seq<Visit>, budget: real, outcome: Node -> Update, n: nat)
    requires IsExecution(v, Generate, INITIAL, budget, outcome) && n <= |v| && n < 3
    requires forall i :: 0 <= i < |v| ==> WritesItsOwn(v[i].node, v[i].update)
    ensures Accumulated(v[..n]).judgments == []
  {
    if n > 0 {
      AccumulatorKeepsResults(v, budget, outcome, n);
    }
  }

  /** What the worker has accumulated when it stops, after any number of events, can be committed if and
      only if it stopped before judging or at most one trace upload failed. */
  lemma {:induction false} CanBeSavedWheneverItStopsIff(v: seq<Visit>, budget: real, outcome: Node -> Update,
                                                        rs: seq<SimResult>, vs: seq<Verdict>, tenant: string,
                                                        run: string, n: nat)
    requires IsRun(v, budget, outcome, rs, vs, tenant, run) && n <= |v|
    requires DistinctScenarios(v[0].after.scenarios) && DistinctResults(rs)
    ensures var acc := Accumulated(v[..n]);
      P.UniqueTraceIds(P.RowsOf(acc.judgments, P.ByKey(acc.traces))) <==> n < 3 || Failures(rs) <= 1
  {
    EveryNodeWritesItsOwn(v, budget, outcome, rs, vs, tenant, run);
    if n < 3 {
      NothingJudgedYet(v, budget, outcome, n);
    } else {
      AccumulatorKeepsResults(v, budget, outcome, n);
      GraphResults(v, budget, outcome, rs, vs, tenant, run, n);
      P.ResultsCanBeSavedIff(v[0].after.scenarios, rs, vs, tenant, run);
    }
  }
}
