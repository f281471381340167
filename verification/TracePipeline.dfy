/** From scenarios to Judgment rows: simulate, judge, persist. One trace or one error for every
    scenario, one judgment for every trace, and one row for every judgment as long as at most one
    trace upload failed. */
module TracePipeline {
  import opened Wrappers
  import opened EvaluationState

  // ---------------------------------------------------------------- the turn loop

  const MAX_TURNS := 5

  /** What the target agent answers on a turn: a reply, complete or not, a reply whose status is not
      a string, which raises once it is logged, or an exception. */
  datatype Response = Reply(complete: bool) | BadStatus | Fails

  datatype Role = RedTeam | TargetAgent | Environment | ErrorEntry

  /** The number of interactions sent: up to the first complete reply or failure, at most five. */
  function Sent(responses: seq<Response>, turn: nat): nat
    requires |responses| == MAX_TURNS && turn < MAX_TURNS
    decreases MAX_TURNS - turn
  {
    if responses[turn] != Reply(false) || turn == MAX_TURNS - 1 then turn + 1 else Sent(responses, turn + 1)
  }

  /** Red team first, then target and environment in turn; the last entry is the agent's reply or
      the error, never unanswered feedback. */
  method SimulateTurns(responses: seq<Response>) returns (log: seq<Role>)
    requires |responses| == MAX_TURNS
    ensures var sent := Sent(responses, 0);
      && |log| == 2 * sent + (if responses[sent - 1].BadStatus? then 1 else 0)
      && log[0] == RedTeam
      && (forall t :: 0 <= t < sent - 1 ==> log[2 * t + 1] == TargetAgent && log[2 * t + 2] == Environment)
      && log[2 * sent - 1] == (if responses[sent - 1].Fails? then ErrorEntry else TargetAgent)
      && (responses[sent - 1].BadStatus? ==> log[2 * sent] == ErrorEntry)
  {
    log := [RedTeam];
    var turn := 0;
    while true
      invariant turn < MAX_TURNS && Sent(responses, 0) == Sent(responses, turn)
      invariant |log| == 2 * turn + 1 && log[0] == RedTeam
      invariant forall t :: 0 <= t < turn ==> log[2 * t + 1] == TargetAgent && log[2 * t + 2] == Environment
      decreases MAX_TURNS - turn
    {
      if responses[turn].Fails? {
        log := log + [ErrorEntry];
        return;
      }
      log := log + [TargetAgent];
      if responses[turn].BadStatus? {
        log := log + [ErrorEntry];
        return;
      }
      if responses[turn].complete || turn == MAX_TURNS - 1 {
        return;
      }
      log := log + [Environment];
      turn := turn + 1;
    }
  }

  /** A simulation sends between one and five interactions and stops at the first that ends it. */
  lemma {:induction false} SentStopsAtTheFirstEnd(responses: seq<Response>, turn: nat)
    requires |responses| == MAX_TURNS && turn < MAX_TURNS
    ensures turn < Sent(responses, turn) <= 5
    ensures forall t :: turn <= t < Sent(responses, turn) - 1 ==> responses[t] == Reply(false)
    ensures Sent(responses, turn) < 5 ==> responses[Sent(responses, turn) - 1] != Reply(false)
    decreases MAX_TURNS - turn
  {
    if responses[turn] == Reply(false) && turn < MAX_TURNS - 1 {
      SentStopsAtTheFirstEnd(responses, turn + 1);
    }
  }

  // ---------------------------------------------------------------- simulate

  /** The key under which a trace is stored. */
  function TraceKey(tenant: string, run: string, traceId: string): string {
    "tenants/" + tenant + "/runs/" + run + "/" + traceId + ".json"
  }

  lemma TraceKeyInjective(tenant: string, run: string, a: string, b: string)
    requires TraceKey(tenant, run, a) == TraceKey(tenant, run, b)
    ensures a == b
  {
    var prefix := "tenants/" + tenant + "/runs/" + run + "/";
    assert TraceKey(tenant, run, a) == prefix + a + ".json";
    assert TraceKey(tenant, run, b) == prefix + b + ".json";
    assert (prefix + a + ".json")[|prefix|..|prefix| + |a|] == a;
    assert (prefix + b + ".json")[|prefix|..|prefix| + |b|] == b;
  }

  /** How one scenario's simulation ends: its trace uploaded, the upload failed after its retries, or
      an exception (collected by gather). `traceId` is the fresh id drawn for it. */
  datatype SimResult = Uploaded(traceId: string, turns: nat) | UploadFailed(traceId: string) | Crashed(error: string)

  function TraceOf(s: Scenario, r: SimResult, tenant: string, run: string): Trace
    requires !r.Crashed?
  {
    match r
    case Uploaded(id, turns) => Trace(id, s.id, Some(TraceKey(tenant, run, id)), turns)
    case UploadFailed(id) => Trace(id, s.id, None, 0)
  }

  /** The sorted results: metadata of the traces, in scenario order. */
  function TracesOf(scenarios: seq<Scenario>, results: seq<SimResult>, tenant: string, run: string): seq<Trace>
    requires |scenarios| == |results|
  {
    if scenarios == [] then []
    else (if results[0].Crashed? then [] else [TraceOf(scenarios[0], results[0], tenant, run)])
         + TracesOf(scenarios[1..], results[1..], tenant, run)
  }

  function ErrorsOf(results: seq<SimResult>): seq<string> {
    if results == [] then [] else (if results[0].Crashed? then [results[0].error] else []) + ErrorsOf(results[1..])
  }

  lemma {:induction false} TracesAppend(ss: seq<Scenario>, rs: seq<SimResult>, s: Scenario, r: SimResult,
                                        tenant: string, run: string)
    requires |ss| == |rs|
    ensures TracesOf(ss + [s], rs + [r], tenant, run)
         == TracesOf(ss, rs, tenant, run) + (if r.Crashed? then [] else [TraceOf(s, r, tenant, run)])
    ensures ErrorsOf(rs + [r]) == ErrorsOf(rs) + (if r.Crashed? then [r.error] else [])
  {
    if ss != [] {
      assert (ss + [s])[1..] == ss[1..] + [s] && (rs + [r])[1..] == rs[1..] + [r];
      TracesAppend(ss[1..], rs[1..], s, r, tenant, run);
    }
  }

  /** What the simulate node returns for its gathered results. */
  function SimulateUpdate(scenarios: seq<Scenario>, results: seq<SimResult>, tenant: string, run: string): Update
    requires |scenarios| == |results|
  {
    NOTHING.(traces := Some(TracesOf(scenarios, results, tenant, run)), cost := Some(0.0), turns := Some(|scenarios|),
             errors := if ErrorsOf(results) == [] then None else Some(ErrorsOf(results)))
  }

  /** The simulate node past its checks: gathers the results and sorts them into lists. */
  method SimulateNode(scenarios: seq<Scenario>, results: seq<SimResult>, tenant: string, run: string)
    returns (u: Update)
    requires |scenarios| == |results|
    ensures u == SimulateUpdate(scenarios, results, tenant, run)
    ensures Or(u.errors, []) == ErrorsOf(results) && Or(u.turns, 0) == |scenarios| && CostOf(u) == 0.0
  {
    var traces: seq<Trace>, errors: seq<string> := [], [];
    var i := 0;
    while i < |results|
      invariant i <= |results|
      invariant traces == TracesOf(scenarios[..i], results[..i], tenant, run) && errors == ErrorsOf(results[..i])
    {
      TracesAppend(scenarios[..i], results[..i], scenarios[i], results[i], tenant, run);
      assert scenarios[..i + 1] == scenarios[..i] + [scenarios[i]] && results[..i + 1] == results[..i] + [results[i]];
      if results[i].Crashed? {
        errors := errors + [results[i].error];
      } else {
        traces := traces + [TraceOf(scenarios[i], results[i], tenant, run)];
      }
      i := i + 1;
    }
    assert scenarios[..i] == scenarios && results[..i] == results;
    u := NOTHING.(traces := Some(traces), cost := Some(0.0), turns := Some(|scenarios|),
                  errors := if errors == [] then None else Some(errors));
  }

  predicate DistinctScenarios(ss: seq<Scenario>) {
    forall i, j :: 0 <= i < j < |ss| ==> ss[i].id != ss[j].id
  }

  /** Fresh ids: no two simulations drew the same. */
  predicate DistinctResults(rs: seq<SimResult>) {
    forall i, j :: 0 <= i < j < |rs| && !rs[i].Crashed? && !rs[j].Crashed? ==> rs[i].traceId != rs[j].traceId
  }

  function Failures(rs: seq<SimResult>): nat {
    if rs == [] then 0 else (if rs[0].UploadFailed? then 1 else 0) + Failures(rs[1..])
  }

  /** Where the traces come from: the k-th from the k-th simulation that did not crash. */
  lemma {:induction false} TraceSource(ss: seq<Scenario>, rs: seq<SimResult>, tenant: string, run: string, k: nat)
    returns (i: nat)
    requires |ss| == |rs| && k < |TracesOf(ss, rs, tenant, run)|
    ensures k <= i < |ss| && !rs[i].Crashed? && TracesOf(ss, rs, tenant, run)[k] == TraceOf(ss[i], rs[i], tenant, run)
    ensures |TracesOf(ss[..i], rs[..i], tenant, run)| == k
  {
    if rs[0].Crashed? {
      var i' := TraceSource(ss[1..], rs[1..], tenant, run, k);
      i := i' + 1;
      assert ss[..i][1..] == ss[1..][..i'] && rs[..i][1..] == rs[1..][..i'];
    } else if k == 0 {
      i := 0;
    } else {
      var i' := TraceSource(ss[1..], rs[1..], tenant, run, k - 1);
      i := i' + 1;
      assert ss[..i][1..] == ss[1..][..i'] && rs[..i][1..] == rs[1..][..i'];
    }
  }

  lemma {:induction false} TraceOfScenario(ss: seq<Scenario>, rs: seq<SimResult>, tenant: string, run: string, i: nat)
    returns (k: nat)
    requires |ss| == |rs| && i < |ss| && !rs[i].Crashed?
    ensures k < |TracesOf(ss, rs, tenant, run)| &&
        TracesOf(ss, rs, tenant, run)[k] == TraceOf(ss[i], rs[i], tenant, run)
  {
    if i == 0 {
      k := 0;
    } else {
      var k' := TraceOfScenario(ss[1..], rs[1..], tenant, run, i - 1);
      k := k' + if rs[0].Crashed? then 0 else 1;
    }
  }

  lemma {:induction false} ResultsAreCounted(ss: seq<Scenario>, rs: seq<SimResult>, tenant: string, run: string)
    requires |ss| == |rs|
    ensures |TracesOf(ss, rs, tenant, run)| + |ErrorsOf(rs)| == |ss|
  {
    if ss != [] {
      ResultsAreCounted(ss[1..], rs[1..], tenant, run);
    }
  }

  /** Distinct traces come from distinct simulations. */
  lemma SourcesDiffer(ss: seq<Scenario>, rs: seq<SimResult>, tenant: string, run: string, k: nat, l: nat)
    returns (i: nat, j: nat)
    requires |ss| == |rs| && k < l < |TracesOf(ss, rs, tenant, run)|
    ensures i < |ss| && j < |ss| && i != j && !rs[i].Crashed? && !rs[j].Crashed?
    ensures TracesOf(ss, rs, tenant, run)[k] == TraceOf(ss[i], rs[i], tenant, run)
    ensures TracesOf(ss, rs, tenant, run)[l] == TraceOf(ss[j], rs[j], tenant, run)
  {
    i := TraceSource(ss, rs, tenant, run, k);
    j := TraceSource(ss, rs, tenant, run, l);
  }

  /** Every scenario yields exactly one trace or exactly one error: it has a trace if and only if its
      simulation did not crash, no scenario has two, trace ids are distinct, and the errors are as
      many as the scenarios without a trace. */
  lemma {:induction false} OneTraceOrOneError(ss: seq<Scenario>, rs: seq<SimResult>, tenant: string, run: string)
    requires |ss| == |rs| && DistinctScenarios(ss) && DistinctResults(rs)
    ensures var ts := TracesOf(ss, rs, tenant, run);
      && (forall i :: 0 <= i < |ss| ==>
            ((exists k :: 0 <= k < |ts| && ts[k].scenarioId == ss[i].id) <==> !rs[i].Crashed?))
      && (forall k, l :: 0 <= k < l < |ts| ==> ts[k].scenarioId != ts[l].scenarioId && ts[k].traceId != ts[l].traceId)
      && |ts| + |ErrorsOf(rs)| == |ss|
  {
    var ts := TracesOf(ss, rs, tenant, run);
    ResultsAreCounted(ss, rs, tenant, run);
    forall i | 0 <= i < |ss|
      ensures (exists k :: 0 <= k < |ts| && ts[k].scenarioId == ss[i].id) <==> !rs[i].Crashed?
    {
      if !rs[i].Crashed? {
        var k := TraceOfScenario(ss, rs, tenant, run, i);
      }
      forall k | 0 <= k < |ts| && ts[k].scenarioId == ss[i].id ensures !rs[i].Crashed? {
        var j := TraceSource(ss, rs, tenant, run, k);
        assert ss[j].id == ss[i].id;
      }
    }
    forall k, l | 0 <= k < l < |ts| ensures ts[k].scenarioId != ts[l].scenarioId && ts[k].traceId != ts[l].traceId {
      var i, j := SourcesDiffer(ss, rs, tenant, run, k, l);
    }
  }

  // ---------------------------------------------------------------- judge

  /** What judging a stored trace comes to: too large, an error anywhere (download, decoding, the
      model), or the model's verdict, whose schema keeps the score in [0, 100]. */
  datatype Verdict = TooLarge | JudgeFails | Parsed(score: real, passed: bool, cost: real)

  predicate ValidVerdict(v: Verdict) { v.Parsed? ==> 0.0 <= v.score <= 100.0 && v.cost >= 0.0 }

  datatype JudgeResult = Judged(judgment: Judgment, cost: real) | NoScenario(error: string)

  predicate HasScenario(t: Trace, scenarios: seq<Scenario>) {
    exists i :: 0 <= i < |scenarios| && scenarios[i].id == t.scenarioId
  }

  /** judge_single_trace. */
  function JudgeSingle(t: Trace, scenarios: seq<Scenario>, v: Verdict): JudgeResult {
    if !HasScenario(t, scenarios) then NoScenario("Scenario " + t.scenarioId + " not found")
    else if t.key == None || !v.Parsed? then Judged(Judgment(t.scenarioId, t.key, 0.0, false), 0.0)
    else Judged(Judgment(t.scenarioId, t.key, v.score, v.passed), v.cost)
  }

  /** The judgments, errors and cost of a batch, in the order of the traces judged. */
  datatype Batch = Batch(judgments: seq<Judgment>, errors: seq<string>, cost: real)

  function Add(b: Batch, r: JudgeResult): Batch {
    match r
    case Judged(j, cost) => b.(judgments := b.judgments + [j], cost := b.cost + cost)
    case NoScenario(e) => b.(errors := b.errors + [e])
  }

  function JudgeAll(ts: seq<Trace>, vs: seq<Verdict>, scenarios: seq<Scenario>): Batch
    requires |ts| == |vs|
  {
    if ts == [] then Batch([], [], 0.0)
    else Add(JudgeAll(ts[..|ts| - 1], vs[..|ts| - 1], scenarios), JudgeSingle(ts[|ts| - 1], scenarios, vs[|ts| - 1]))
  }

  /** What judging a trace costs: only a verdict of the model on a stored trace of a known scenario does. */
  function Charge(t: Trace, v: Verdict, scenarios: seq<Scenario>): real {
    if HasScenario(t, scenarios) && t.key.Some? && v.Parsed? then v.cost else 0.0
  }

  function Charges(ts: seq<Trace>, vs: seq<Verdict>, scenarios: seq<Scenario>): real
    requires |ts| == |vs|
  {
    if ts == [] then 0.0 else Charge(ts[0], vs[0], scenarios) + Charges(ts[1..], vs[1..], scenarios)
  }

  lemma {:induction false} ChargesAppend(ts: seq<Trace>, vs: seq<Verdict>, t: Trace, v: Verdict,
                                         scenarios: seq<Scenario>)
    requires |ts| == |vs|
    ensures Charges(ts + [t], vs + [v], scenarios) == Charges(ts, vs, scenarios) + Charge(t, v, scenarios)
  {
    if ts == [] {
      assert [] + [t] == [t] && [] + [v] == [v] && [t][1..] == [] && [v][1..] == [];
    } else {
      assert (ts + [t])[1..] == ts[1..] + [t] && (vs + [v])[1..] == vs[1..] + [v];
      ChargesAppend(ts[1..], vs[1..], t, v, scenarios);
    }
  }

  /** One more trace: a judgment at its own charge if its scenario is known, else an error and no more. */
  lemma {:induction false} JudgingOneMore(ts: seq<Trace>, vs: seq<Verdict>, t: Trace, v: Verdict,
                                          scenarios: seq<Scenario>)
    requires |ts| == |vs|
    ensures JudgeAll([], [], scenarios) == Batch([], [], 0.0)
    ensures var batch, more := JudgeAll(ts, vs, scenarios), JudgeAll(ts + [t], vs + [v], scenarios);
      && more.cost == batch.cost + Charge(t, v, scenarios)
      && (if exists i :: 0 <= i < |scenarios| && scenarios[i].id == t.scenarioId
          then more.errors == batch.errors && more.judgments[..|batch.judgments|] == batch.judgments
               && |more.judgments| == |batch.judgments| + 1
          else more.judgments == batch.judgments && more.errors[..|batch.errors|] == batch.errors
               && |more.errors| == |batch.errors| + 1)
  {
    assert (ts + [t])[..|ts|] == ts && (vs + [v])[..|vs|] == vs;
  }

  /** The judge's cost is the sum of the charges. */
  lemma {:induction false} CostIsTheCharges(ts: seq<Trace>, vs: seq<Verdict>, scenarios: seq<Scenario>)
    requires |ts| == |vs|
    ensures JudgeAll(ts, vs, scenarios).cost == Charges(ts, vs, scenarios)
    ensures |JudgeAll(ts, vs, scenarios).judgments| + |JudgeAll(ts, vs, scenarios).errors| == |ts|
  {
    if ts != [] {
      var n := |ts| - 1;
      assert ts == ts[..n] + [ts[n]] && vs == vs[..n] + [vs[n]];
      CostIsTheCharges(ts[..n], vs[..n], scenarios);
      JudgingOneMore(ts[..n], vs[..n], ts[n], vs[n], scenarios);
      ChargesAppend(ts[..n], vs[..n], ts[n], vs[n], scenarios);
    }
  }

  predicate AlreadyJudged(t: Trace, judgments: seq<Judgment>) {
    exists k :: 0 <= k < |judgments| && judgments[k].scenarioId == t.scenarioId
  }

  function Unjudged(ts: seq<Trace>, judgments: seq<Judgment>): seq<Trace> {
    if ts == [] then []
    else Unjudged(ts[..|ts| - 1], judgments) + (if AlreadyJudged(ts[|ts| - 1], judgments) then [] else [ts[|ts| - 1]])
  }

  lemma {:induction false} AllUnjudgedAtFirst(ts: seq<Trace>)
    ensures Unjudged(ts, []) == ts
  {
    if ts != [] {
      AllUnjudgedAtFirst(ts[..|ts| - 1]);
    }
  }

  /** The positions of the traces of scenarios without a judgment. */
  function Positions(ts: seq<Trace>, judgments: seq<Judgment>): (from: seq<nat>)
    ensures forall k :: 0 <= k < |from| ==> from[k] < |ts|
    ensures forall k, l :: 0 <= k < l < |from| ==> from[k] < from[l]
  {
    if ts == [] then []
    else Positions(ts[..|ts| - 1], judgments) + (if AlreadyJudged(ts[|ts| - 1], judgments) then [] else [|ts| - 1])
  }

  /** The filter keeps exactly the traces of scenarios without a judgment, each once and in order: the
      k-th kept is the one at the k-th position, and positions increase. */
  lemma {:induction false} UnjudgedInOrder(ts: seq<Trace>, judgments: seq<Judgment>)
    ensures |Unjudged(ts, judgments)| == |Positions(ts, judgments)|
    ensures forall k :: 0 <= k < |Positions(ts, judgments)| ==>
        Unjudged(ts, judgments)[k] == ts[Positions(ts, judgments)[k]]
  {
    if ts != [] {
      var n := |ts| - 1;
      UnjudgedInOrder(ts[..n], judgments);
      var from := Positions(ts, judgments);
      forall k | 0 <= k < |from| ensures Unjudged(ts, judgments)[k] == ts[from[k]] {
        if k < |Positions(ts[..n], judgments)| {
          assert from[k] == Positions(ts[..n], judgments)[k];
        }
      }
    }
  }

  lemma {:induction false} PositionsAreTheUnjudged(ts: seq<Trace>, judgments: seq<Judgment>, i: nat)
    requires i < |ts|
    ensures i in Positions(ts, judgments) <==>
              forall k :: 0 <= k < |judgments| ==> judgments[k].scenarioId != ts[i].scenarioId
  {
    var n := |ts| - 1;
    if i < n {
      PositionsAreTheUnjudged(ts[..n], judgments, i);
      assert ts[..n][i] == ts[i];
    }
  }

  /** Once judged, no trace is judged again: a second visit to the node would find nothing to do. */
  lemma {:induction false} NothingLeftToJudge(ts: seq<Trace>, vs: seq<Verdict>, scenarios: seq<Scenario>)
    requires |ts| == |vs| && (forall k :: 0 <= k < |vs| ==> ValidVerdict(vs[k]))
    requires forall k :: 0 <= k < |ts| ==> HasScenario(ts[k], scenarios)
    ensures Unjudged(ts, JudgeAll(ts, vs, scenarios).judgments) == []
  {
    OneJudgmentPerTrace(ts, vs, scenarios);
    var judgments := JudgeAll(ts, vs, scenarios).judgments;
    forall i | 0 <= i < |ts| ensures AlreadyJudged(ts[i], judgments) {
      assert JudgedAs(judgments[i], ts[i], vs[i]);
    }
    NoneUnjudged(ts, judgments);
  }

  lemma {:induction false} NoneUnjudged(ts: seq<Trace>, judgments: seq<Judgment>)
    requires forall i :: 0 <= i < |ts| ==> AlreadyJudged(ts[i], judgments)
    ensures Unjudged(ts, judgments) == []
  {
    if ts != [] {
      NoneUnjudged(ts[..|ts| - 1], judgments);
    }
  }

  /** The filter before the judges are started. */
  method SelectUnjudged(ts: seq<Trace>, judgments: seq<Judgment>) returns (unjudged: seq<Trace>)
    ensures unjudged == Unjudged(ts, judgments)
  {
    unjudged := [];
    for i := 0 to |ts|
      invariant unjudged == Unjudged(ts[..i], judgments)
    {
      assert ts[..i + 1][..i] == ts[..i];
      if !AlreadyJudged(ts[i], judgments) {
        unjudged := unjudged + [ts[i]];
      }
    }
    assert ts[..|ts|] == ts;
  }

  /** The loop over the gathered results. */
  method CollectJudgments(ts: seq<Trace>, vs: seq<Verdict>, scenarios: seq<Scenario>) returns (batch: Batch)
    requires |ts| == |vs|
    ensures batch == JudgeAll(ts, vs, scenarios)
  {
    batch := Batch([], [], 0.0);
    for i := 0 to |ts|
      invariant batch == JudgeAll(ts[..i], vs[..i], scenarios)
    {
      assert ts[..i + 1][..i] == ts[..i] && vs[..i + 1][..i] == vs[..i];
      batch := Add(batch, JudgeSingle(ts[i], scenarios, vs[i]));
    }
    assert ts[..|ts|] == ts && vs[..|vs|] == vs;
  }

  /** What the judge node returns. */
  function JudgeUpdate(s: State, vs: seq<Verdict>): Update
    requires |vs| == |Unjudged(s.traces, s.judgments)|
  {
    var ts := Unjudged(s.traces, s.judgments);
    var batch := JudgeAll(ts, vs, s.scenarios);
    if ts == [] then NOTHING
    else NOTHING.(judgments := Some(batch.judgments), cost := Some(batch.cost), turns := Some(|ts|),
                  errors := if batch.errors == [] then None else Some(batch.errors))
  }

  /** The judge node: the traces of scenarios without a judgment, each judged once, in order. */
  method JudgeNode(s: State, vs: seq<Verdict>) returns (u: Update)
    requires |vs| == |Unjudged(s.traces, s.judgments)|
    ensures u == JudgeUpdate(s, vs)
    ensures CostOf(u) == Charges(Unjudged(s.traces, s.judgments), vs, s.scenarios)
    ensures Or(u.turns, 0) == |Unjudged(s.traces, s.judgments)|
    ensures var batch := JudgeAll(Unjudged(s.traces, s.judgments), vs, s.scenarios);
      Or(u.judgments, []) == batch.judgments && Or(u.errors, []) == batch.errors
  {
    var unjudged := SelectUnjudged(s.traces, s.judgments);
    if unjudged == [] {
      return NOTHING;
    }
    var batch := CollectJudgments(unjudged, vs, s.scenarios);
    CostIsTheCharges(unjudged, vs, s.scenarios);
    u := NOTHING.(judgments := Some(batch.judgments), cost := Some(batch.cost), turns := Some(|unjudged|),
                  errors := if batch.errors == [] then None else Some(batch.errors));
  }

  /** The judgment a trace with a scenario gets. */
  predicate JudgedAs(j: Judgment, t: Trace, v: Verdict) {
    && j.scenarioId == t.scenarioId && j.traceKey == t.key && 0.0 <= j.score <= 100.0
    && (if t.key.Some? && v.Parsed? then j.score == v.score && j.passed == v.passed else j.score == 0.0 && !j.passed)
  }

  /** Every simulated trace gets exactly one judgment, for its own scenario and key, in order; a
      trace that was not uploaded, is too large or whose judge failed scores 0 and fails. */
  lemma {:induction false} OneJudgmentPerTrace(ts: seq<Trace>, vs: seq<Verdict>, scenarios: seq<Scenario>)
    requires |ts| == |vs| && (forall k :: 0 <= k < |vs| ==> ValidVerdict(vs[k]))
    requires forall k :: 0 <= k < |ts| ==> HasScenario(ts[k], scenarios)
    ensures var batch := JudgeAll(ts, vs, scenarios);
      && |batch.judgments| == |ts| && batch.errors == [] && batch.cost >= 0.0
      && forall k :: 0 <= k < |ts| ==> JudgedAs(batch.judgments[k], ts[k], vs[k])
  {
    if ts != [] {
      var n := |ts| - 1;
      OneJudgmentPerTrace(ts[..n], vs[..n], scenarios);
      assert HasScenario(ts[n], scenarios) && ValidVerdict(vs[n]);
      forall k | 0 <= k < n ensures JudgedAs(JudgeAll(ts, vs, scenarios).judgments[k], ts[k], vs[k]) {
        assert ts[..n][k] == ts[k] && vs[..n][k] == vs[k];
      }
    }
  }

  /** The metadata of a simulated scenario: its own ids, and a key and turns if and only if its trace was
      uploaded. */
  lemma TraceMetadata(ss: seq<Scenario>, rs: seq<SimResult>, tenant: string, run: string, i: nat) returns (k: nat)
    requires |ss| == |rs| && i < |ss| && !rs[i].Crashed?
    ensures k < |TracesOf(ss, rs, tenant, run)|
    ensures var t := TracesOf(ss, rs, tenant, run)[k];
      && t.scenarioId == ss[i].id && t.traceId == rs[i].traceId
      && (rs[i].Uploaded? ==> t.key == Some(TraceKey(tenant, run, rs[i].traceId)) && t.turns == rs[i].turns)
      && (rs[i].UploadFailed? ==> t.key == None && t.turns == 0)
  {
    k := TraceOfScenario(ss, rs, tenant, run, i);
  }

  /** The key's format. */
  lemma {:induction false} TraceKeyFormat(tenant: string, run: string, id: string)
    requires tenant == "t" && run == "r" && id == "x"
    ensures TraceKey(tenant, run, id) == "tenants/t/runs/r/x.json"
  {
    assert "tenants/" + "t" == "tenants/t";
    assert "tenants/t" + "/runs/" == "tenants/t/runs/";
    assert "tenants/t/runs/" + "r" == "tenants/t/runs/r";
    assert "tenants/t/runs/r" + "/" == "tenants/t/runs/r/";
    assert "tenants/t/runs/r/" + "x" == "tenants/t/runs/r/x";
  }
}
