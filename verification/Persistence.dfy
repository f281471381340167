/** Writing a run's results: traces and judgments are joined by storage key. */
module Persistence {
  import opened Wrappers
  import opened EvaluationState
  import opened TracePipeline

  /** A row of the judgments table; trace_id is unique there. */
  datatype JudgmentRow = JudgmentRow(traceId: string, scenarioId: string, score: real, passed: bool)

  datatype Saved = Saved(rows: seq<JudgmentRow>, passed: nat, failed: nat, avg: Option<real>)

  /** trace_models_by_key: of traces with the same key, the last one wins. */
  function ByKey(ts: seq<Trace>): map<Option<string>, Trace> {
    if ts == [] then map[] else ByKey(ts[..|ts| - 1])[ts[|ts| - 1].key := ts[|ts| - 1]]
  }

  function RowOf(j: Judgment, t: Trace): JudgmentRow { JudgmentRow(t.traceId, t.scenarioId, j.score, j.passed) }

  /** The rows written: a judgment whose key matches no trace is skipped. */
  function RowsOf(js: seq<Judgment>, byKey: map<Option<string>, Trace>): seq<JudgmentRow> {
    if js == [] then []
    else RowsOf(js[..|js| - 1], byKey)
         + (if js[|js| - 1].traceKey in byKey then [RowOf(js[|js| - 1], byKey[js[|js| - 1].traceKey])] else [])
  }

  function Passes(rows: seq<JudgmentRow>): nat {
    if rows == [] then 0 else Passes(rows[..|rows| - 1]) + (if rows[|rows| - 1].passed then 1 else 0)
  }

  function Total(rows: seq<JudgmentRow>): real {
    if rows == [] then 0.0 else Total(rows[..|rows| - 1]) + rows[|rows| - 1].score
  }

  /** The unique constraint on trace_id, checked when the transaction is flushed. */
  predicate UniqueTraceIds(rows: seq<JudgmentRow>) {
    forall k, l :: 0 <= k < l < |rows| ==> rows[k].traceId != rows[l].traceId
  }

  /** The traces by storage key. */
  method IndexTraces(ts: seq<Trace>) returns (byKey: map<Option<string>, Trace>)
    ensures byKey == ByKey(ts)
  {
    byKey := map[];
    for i := 0 to |ts|
      invariant byKey == ByKey(ts[..i])
    {
      assert ts[..i + 1][..i] == ts[..i];
      byKey := byKey[ts[i].key := ts[i]];
    }
    assert ts[..|ts|] == ts;
  }

  lemma {:induction false} RowsAppend(js: seq<Judgment>, j: Judgment, byKey: map<Option<string>, Trace>)
    ensures RowsOf(js + [j], byKey)
         == if j.traceKey in byKey then RowsOf(js, byKey) + [RowOf(j, byKey[j.traceKey])] else RowsOf(js, byKey)
  {
    assert (js + [j])[..|js|] == js;
  }

  lemma {:induction false} CountersAppend(rows: seq<JudgmentRow>, row: JudgmentRow)
    ensures Passes(rows + [row]) == Passes(rows) + (if row.passed then 1 else 0)
    ensures Total(rows + [row]) == Total(rows) + row.score
  {
    assert (rows + [row])[..|rows|] == rows;
  }

  /** Some trace has this key. */
  predicate HasKey(ts: seq<Trace>, key: Option<string>) { exists i :: 0 <= i < |ts| && ts[i].key == key }

  /** The judgments that find a trace, with the given outcome. */
  function Found(ts: seq<Trace>, js: seq<Judgment>, passed: bool): set<int> {
    set k | 0 <= k < |js| && HasKey(ts, js[k].traceKey) && js[k].passed == passed
  }

  /** The sum of the scores of the judgments that find a trace. */
  function ScoreSum(ts: seq<Trace>, js: seq<Judgment>): real {
    if js == [] then 0.0
    else (if HasKey(ts, js[0].traceKey) then js[0].score else 0.0) + ScoreSum(ts, js[1..])
  }

  lemma {:induction false} KeysFound(ts: seq<Trace>, key: Option<string>)
    ensures key in ByKey(ts) <==> HasKey(ts, key)
  {
    if ts != [] {
      KeysFound(ts[..|ts| - 1], key);
      if i :| 0 <= i < |ts| - 1 && ts[i].key == key {
        assert ts[..|ts| - 1][i].key == key;
      }
    }
  }

  lemma {:induction false} ScoreSumAppend(ts: seq<Trace>, js: seq<Judgment>, j: Judgment)
    ensures ScoreSum(ts, js + [j]) == ScoreSum(ts, js) + (if HasKey(ts, j.traceKey) then j.score else 0.0)
  {
    if js == [] {
      assert [] + [j] == [j] && [j][1..] == [];
    } else {
      assert (js + [j])[1..] == js[1..] + [j];
      ScoreSumAppend(ts, js[1..], j);
    }
  }

  /** The counters and the sum of the rows are those of the judgments that find a trace. */
  lemma {:induction false} CountersAreTheJudgments(ts: seq<Trace>, js: seq<Judgment>)
    ensures var rows := RowsOf(js, ByKey(ts));
      && Passes(rows) == |Found(ts, js, true)| && |rows| - Passes(rows) == |Found(ts, js, false)|
      && Total(rows) == ScoreSum(ts, js)
  {
    if js != [] {
      var n := |js| - 1;
      CountersAreTheJudgments(ts, js[..n]);
      assert js == js[..n] + [js[n]];
      RowsAppend(js[..n], js[n], ByKey(ts));
      KeysFound(ts, js[n].traceKey);
      ScoreSumAppend(ts, js[..n], js[n]);
      FoundAppend(ts, js, true);
      FoundAppend(ts, js, false);
      if js[n].traceKey in ByKey(ts) {
        CountersAppend(RowsOf(js[..n], ByKey(ts)), RowOf(js[n], ByKey(ts)[js[n].traceKey]));
      }
    }
  }

  lemma FoundAppend(ts: seq<Trace>, js: seq<Judgment>, passed: bool)
    requires js != []
    ensures var n := |js| - 1;
      |Found(ts, js, passed)|
      == |Found(ts, js[..n], passed)| + (if HasKey(ts, js[n].traceKey) && js[n].passed == passed then 1 else 0)
  {
    var n := |js| - 1;
    var before := Found(ts, js[..n], passed);
    assert n !in before && forall k :: 0 <= k < n ==> js[..n][k] == js[k];
    assert Found(ts, js, passed)
        == if HasKey(ts, js[n].traceKey) && js[n].passed == passed then before + {n} else before;
  }

  /** The loop over the judgments and the average. */
  method WriteRows(ts: seq<Trace>, js: seq<Judgment>) returns (saved: Saved)
    ensures var rows := RowsOf(js, ByKey(ts));
      && saved.rows == rows
      && saved.passed == Passes(rows) && saved.passed + saved.failed == |rows|
      && saved.avg == if rows == [] then None else Some(Total(rows) / |rows| as real)
  {
    var byKey := IndexTraces(ts);
    var rows: seq<JudgmentRow>, passed: nat, failed: nat, sum := [], 0, 0, 0.0;
    for i := 0 to |js|
      invariant rows == RowsOf(js[..i], byKey)
      invariant passed == Passes(rows) && passed + failed == |rows| && sum == Total(rows)
    {
      assert js[..i + 1] == js[..i] + [js[i]];
      RowsAppend(js[..i], js[i], byKey);
      if js[i].traceKey in byKey {
        var row := RowOf(js[i], byKey[js[i].traceKey]);
        CountersAppend(rows, row);
        rows := rows + [row];
        sum := sum + js[i].score;
        if row.passed {
          passed := passed + 1;
        } else {
          failed := failed + 1;
        }
      }
    }
    assert js[..|js|] == js;
    saved := Saved(rows, passed, failed, if rows == [] then None else Some(sum / |rows| as real));
  }

  lemma Quotient(total: real, n: nat)
    requires n > 0
    ensures (total / n as real) * n as real == total
  {
  }

  /** _persist_final_state up to its commit: the rows, the two counters and the average. */
  method PersistFinalState(ts: seq<Trace>, js: seq<Judgment>) returns (saved: Saved)
    ensures saved.passed == |Found(ts, js, true)| && saved.failed == |Found(ts, js, false)|
    ensures |saved.rows| == saved.passed + saved.failed
    ensures saved.avg == None <==> saved.rows == []
    ensures saved.avg.Some? ==> saved.avg.value * |saved.rows| as real == ScoreSum(ts, js)
    ensures var rows := RowsOf(js, ByKey(ts));
      && saved.rows == rows
      && saved.passed == Passes(rows) && saved.passed + saved.failed == |rows|
      && saved.avg == if rows == [] then None else Some(Total(rows) / |rows| as real)
  {
    saved := WriteRows(ts, js);
    CountersAreTheJudgments(ts, js);
    if saved.rows != [] {
      Quotient(Total(saved.rows), |saved.rows|);
    }
  }

  // ---------------------------------------------------------------- the join

  /** With pairwise distinct keys every trace is found under its own. */
  lemma {:induction false} DistinctKeysFindThemselves(ts: seq<Trace>, k: nat)
    requires k < |ts|
    ensures ts[k].key in ByKey(ts)
    ensures (forall l :: 0 <= l < |ts| && l != k ==> ts[l].key != ts[k].key) ==> ByKey(ts)[ts[k].key] == ts[k]
  {
    var n := |ts| - 1;
    if k < n {
      DistinctKeysFindThemselves(ts[..n], k);
    }
  }

  /** When every judgment's key is a trace's, there is one row per judgment. */
  lemma {:induction false} RowsAreParallel(js: seq<Judgment>, byKey: map<Option<string>, Trace>)
    requires forall k :: 0 <= k < |js| ==> js[k].traceKey in byKey
    ensures |RowsOf(js, byKey)| == |js|
    ensures forall k :: 0 <= k < |js| ==> RowsOf(js, byKey)[k] == RowOf(js[k], byKey[js[k].traceKey])
  {
    if js != [] {
      RowsAreParallel(js[..|js| - 1], byKey);
    }
  }

  lemma {:induction false} TwoFailures(rs: seq<SimResult>, i: nat, j: nat)
    requires i < j < |rs| && rs[i].UploadFailed? && rs[j].UploadFailed?
    ensures Failures(rs) >= 2
  {
    if i > 0 {
      TwoFailures(rs[1..], i - 1, j - 1);
    } else {
      OneFailure(rs[1..], j - 1);
    }
  }

  lemma {:induction false} OneFailure(rs: seq<SimResult>, j: nat)
    requires j < |rs| && rs[j].UploadFailed?
    ensures Failures(rs) >= 1
  {
    if j > 0 {
      OneFailure(rs[1..], j - 1);
    }
  }

  lemma {:induction false} FirstFailure(rs: seq<SimResult>) returns (i: nat)
    requires Failures(rs) >= 1
    ensures i < |rs| && rs[i].UploadFailed? && Failures(rs[i + 1..]) == Failures(rs) - 1
  {
    if rs[0].UploadFailed? {
      i := 0;
    } else {
      var i' := FirstFailure(rs[1..]);
      i := i' + 1;
      assert rs[1..][i' + 1..] == rs[i + 1..];
    }
  }

  /** A run's whole pipeline: what is simulated, what is judged, what is written. */
  function Rows(ss: seq<Scenario>, rs: seq<SimResult>, vs: seq<Verdict>, tenant: string, run: string): seq<JudgmentRow>
    requires |ss| == |rs| && |vs| == |TracesOf(ss, rs, tenant, run)|
  {
    var ts := TracesOf(ss, rs, tenant, run);
    RowsOf(JudgeAll(ts, vs, ss).judgments, ByKey(ts))
  }

  lemma {:induction false} TracesHaveScenarios(ss: seq<Scenario>, rs: seq<SimResult>, tenant: string, run: string)
    requires |ss| == |rs|
    ensures forall k :: 0 <= k < |TracesOf(ss, rs, tenant, run)| ==> HasScenario(TracesOf(ss, rs, tenant, run)[k], ss)
  {
    var ts := TracesOf(ss, rs, tenant, run);
    forall k | 0 <= k < |ts| ensures HasScenario(ts[k], ss) {
      var i := TraceSource(ss, rs, tenant, run, k);
      assert ss[i].id == ts[k].scenarioId;
    }
  }

  /** Two traces share a key only if neither was uploaded. */
  lemma {:induction false} SharedKeysAreMissingKeys(ss: seq<Scenario>, rs: seq<SimResult>, tenant: string,
                                                    run: string, k: nat, l: nat)
    requires |ss| == |rs| && DistinctScenarios(ss) && DistinctResults(rs)
    requires k < l < |TracesOf(ss, rs, tenant, run)|
    requires TracesOf(ss, rs, tenant, run)[k].key == TracesOf(ss, rs, tenant, run)[l].key
    ensures Failures(rs) >= 2
  {
    var i, j := SourcesDiffer(ss, rs, tenant, run, k, l);
    if rs[i].Uploaded? {
      TraceKeyInjective(tenant, run, rs[i].traceId, rs[j].traceId);
    } else if i < j {
      TwoFailures(rs, i, j);
    } else {
      TwoFailures(rs, j, i);
    }
  }

  /** The rows line up with the traces, each under the trace found by its key. */
  lemma {:induction false} RowsLineUp(ss: seq<Scenario>, rs: seq<SimResult>, vs: seq<Verdict>, tenant: string,
                                      run: string)
    requires |ss| == |rs| && |vs| == |TracesOf(ss, rs, tenant, run)|
    requires forall k :: 0 <= k < |vs| ==> ValidVerdict(vs[k])
    ensures var ts := TracesOf(ss, rs, tenant, run);
      var rows := Rows(ss, rs, vs, tenant, run);
      && |rows| == |ts|
      && forall k :: 0 <= k < |ts| ==>
           && ts[k].key in ByKey(ts)
           && rows[k].traceId == ByKey(ts)[ts[k].key].traceId && rows[k].scenarioId == ByKey(ts)[ts[k].key].scenarioId
           && 0.0 <= rows[k].score <= 100.0
           && (ts[k].key == None ==> !rows[k].passed)
  {
    var ts := TracesOf(ss, rs, tenant, run);
    var js := JudgeAll(ts, vs, ss).judgments;
    TracesHaveScenarios(ss, rs, tenant, run);
    OneJudgmentPerTrace(ts, vs, ss);
    forall k | 0 <= k < |ts| ensures ts[k].key in ByKey(ts) && js[k].traceKey == ts[k].key {
      DistinctKeysFindThemselves(ts, k);
      assert JudgedAs(js[k], ts[k], vs[k]);
    }
    RowsAreParallel(js, ByKey(ts));
    forall k | 0 <= k < |ts| ensures 0.0 <= js[k].score <= 100.0 && (ts[k].key == None ==> !js[k].passed) {
      assert JudgedAs(js[k], ts[k], vs[k]);
    }
  }

  /** When at most one upload failed, persistence writes exactly one row per trace, under the trace's
      own id and scenario. */
  lemma {:induction false} OneRowPerTrace(ss: seq<Scenario>, rs: seq<SimResult>, vs: seq<Verdict>, tenant: string,
                                          run: string)
    requires |ss| == |rs| && DistinctScenarios(ss) && DistinctResults(rs)
    requires |vs| == |TracesOf(ss, rs, tenant, run)| && (forall k :: 0 <= k < |vs| ==> ValidVerdict(vs[k]))
    requires Failures(rs) <= 1
    ensures var ts := TracesOf(ss, rs, tenant, run);
      var rows := Rows(ss, rs, vs, tenant, run);
      && |rows| == |ts|
      && (forall k :: 0 <= k < |ts| ==> rows[k].traceId == ts[k].traceId && rows[k].scenarioId == ts[k].scenarioId)
  {
    var ts := TracesOf(ss, rs, tenant, run);
    RowsLineUp(ss, rs, vs, tenant, run);
    forall k | 0 <= k < |ts| ensures ByKey(ts)[ts[k].key] == ts[k] {
      DistinctKeysFindThemselves(ts, k);
      forall l | 0 <= l < |ts| && l != k ensures ts[l].key != ts[k].key {
        if ts[l].key == ts[k].key {
          SharedKeysAreMissingKeys(ss, rs, tenant, run, if k < l then k else l, if k < l then l else k);
        }
      }
    }
  }

  /** The unique constraint holds, so the results can be committed, if and only if at most one trace
      upload failed: two traces without a key are joined to the same trace row. */
  lemma {:induction false} ResultsCanBeSavedIff(ss: seq<Scenario>, rs: seq<SimResult>, vs: seq<Verdict>,
                                                tenant: string, run: string)
    requires |ss| == |rs| && DistinctScenarios(ss) && DistinctResults(rs)
    requires |vs| == |TracesOf(ss, rs, tenant, run)| && (forall k :: 0 <= k < |vs| ==> ValidVerdict(vs[k]))
    ensures UniqueTraceIds(Rows(ss, rs, vs, tenant, run)) <==> Failures(rs) <= 1
  {
    var ts := TracesOf(ss, rs, tenant, run);
    var rows := Rows(ss, rs, vs, tenant, run);
    if Failures(rs) <= 1 {
      OneRowPerTrace(ss, rs, vs, tenant, run);
      OneTraceOrOneError(ss, rs, tenant, run);
    } else {
      RowsLineUp(ss, rs, vs, tenant, run);
      var i := FirstFailure(rs);
      var d := FirstFailure(rs[i + 1..]);
      var j := i + 1 + d;
      var k := TraceOfScenario(ss, rs, tenant, run, i);
      var l := TraceOfScenario(ss, rs, tenant, run, j);
      assert ts[k].key == None && ts[l].key == None;
      assert ts[k].scenarioId == ss[i].id && ts[l].scenarioId == ss[j].id && k != l;
      assert rows[k].traceId == rows[l].traceId;
    }
  }

  lemma {:induction false} TotalBounded(rows: seq<JudgmentRow>)
    requires forall k :: 0 <= k < |rows| ==> 0.0 <= rows[k].score <= 100.0
    ensures 0.0 <= Total(rows) <= 100.0 * |rows| as real
  {
    if rows != [] {
      TotalBounded(rows[..|rows| - 1]);
    }
  }

  lemma MeanBounded(total: real, n: nat)
    requires n > 0 && 0.0 <= total <= 100.0 * n as real
    ensures 0.0 <= total / n as real <= 100.0
  {
  }

  /** Any average that is saved lies in [0, 100]. */
  lemma {:induction false} AverageInRange(ss: seq<Scenario>, rs: seq<SimResult>, vs: seq<Verdict>, tenant: string,
                                          run: string)
    requires |ss| == |rs| && |vs| == |TracesOf(ss, rs, tenant, run)|
    requires forall k :: 0 <= k < |vs| ==> ValidVerdict(vs[k])
    ensures var rows := Rows(ss, rs, vs, tenant, run);
      rows != [] ==> 0.0 <= Total(rows) / |rows| as real <= 100.0
  {
    RowsLineUp(ss, rs, vs, tenant, run);
    var rows := Rows(ss, rs, vs, tenant, run);
    if rows != [] {
      TotalBounded(rows);
      MeanBounded(Total(rows), |rows|);
    }
  }

  /** What a trace's judgment row says, by the judge's verdict on it alone. */
  predicate SaysTheVerdict(row: JudgmentRow, t: Trace, v: Verdict) {
    && row.traceId == t.traceId && row.scenarioId == t.scenarioId
    && (row.passed <==> t.key.Some? && v.Parsed? && v.passed)
    && row.score == (if t.key.Some? && v.Parsed? then v.score else 0.0)
  }

  /** With at most one failed upload, each row is its own trace's verdict. */
  lemma {:induction false} RowsSayTheVerdicts(ss: seq<Scenario>, rs: seq<SimResult>, vs: seq<Verdict>,
                                              tenant: string, run: string)
    requires |ss| == |rs| && DistinctScenarios(ss) && DistinctResults(rs)
    requires |vs| == |TracesOf(ss, rs, tenant, run)| && (forall k :: 0 <= k < |vs| ==> ValidVerdict(vs[k]))
    requires Failures(rs) <= 1
    ensures var ts, rows := TracesOf(ss, rs, tenant, run), Rows(ss, rs, vs, tenant, run);
      |rows| == |ts| && forall k :: 0 <= k < |ts| ==> SaysTheVerdict(rows[k], ts[k], vs[k])
  {
    var ts, js := TracesOf(ss, rs, tenant, run), JudgeAll(TracesOf(ss, rs, tenant, run), vs, ss).judgments;
    OneRowPerTrace(ss, rs, vs, tenant, run);
    TracesHaveScenarios(ss, rs, tenant, run);
    OneJudgmentPerTrace(ts, vs, ss);
    forall k | 0 <= k < |js| ensures js[k].traceKey in ByKey(ts) && JudgedAs(js[k], ts[k], vs[k]) {
      DistinctKeysFindThemselves(ts, k);
    }
    RowsAreParallel(js, ByKey(ts));
  }

  /** Of several traces with one key the last is joined. */
  lemma {:induction false} LastWithTheKey(ts: seq<Trace>, k: nat)
    requires k < |ts| && forall l :: k < l < |ts| ==> ts[l].key != ts[k].key
    ensures ts[k].key in ByKey(ts) && ByKey(ts)[ts[k].key] == ts[k]
  {
    var n := |ts| - 1;
    if k < n {
      LastWithTheKey(ts[..n], k);
    }
  }
}
