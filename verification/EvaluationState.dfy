/** The state of one evaluation as the graph carries it, the updates its nodes return, and the two
    ways an update is folded in: by the graph's reducers and by the worker's `dict.update`. */
module EvaluationState {
  import opened Wrappers

  datatype Scenario = Scenario(id: string, title: string, description: string)

  /** Trace metadata; no key means the upload failed. */
  datatype Trace = Trace(traceId: string, scenarioId: string, key: Option<string>, turns: nat)

  datatype Judgment = Judgment(scenarioId: string, traceKey: Option<string>, score: real, passed: bool)

  datatype Drift = Unset | Null | Profile(status: string, score: Option<real>)

  datatype State = State(
    cost: real,
    turns: nat,
    scenarios: seq<Scenario>,
    traces: seq<Trace>,
    judgments: seq<Judgment>,
    suggestions: seq<string>,
    drift: Drift,
    errors: seq<string>)

  const INITIAL := State(0.0, 0, [], [], [], [], Unset, [])

  /** A node's result; None where the returned dictionary has no such key. */
  datatype Update = Update(
    cost: Option<real>,
    turns: Option<nat>,
    scenarios: Option<seq<Scenario>>,
    traces: Option<seq<Trace>>,
    judgments: Option<seq<Judgment>>,
    suggestions: Option<seq<string>>,
    drift: Option<Drift>,
    errors: Option<seq<string>>)

  const NOTHING := Update(None, None, None, None, None, None, None, None)

  function Or<T>(o: Option<T>, default: T): T { if o.Some? then o.value else default }

  /** What a node adds to the cost. */
  function CostOf(u: Update): real { if u.cost.Some? then u.cost.value else 0.0 }

  /** The reducers: operator.add everywhere but on the drift profile. */
  function Merge(s: State, u: Update): State {
    State(s.cost + CostOf(u), s.turns + Or(u.turns, 0), s.scenarios + Or(u.scenarios, []),
          s.traces + Or(u.traces, []), s.judgments + Or(u.judgments, []),
          s.suggestions + Or(u.suggestions, []), Or(u.drift, s.drift), s.errors + Or(u.errors, []))
  }

  /** final_state.update(state_update). */
  function Overwrite(s: State, u: Update): State {
    State(Or(u.cost, s.cost), Or(u.turns, s.turns), Or(u.scenarios, s.scenarios), Or(u.traces, s.traces),
          Or(u.judgments, s.judgments), Or(u.suggestions, s.suggestions), Or(u.drift, s.drift), Or(u.errors, s.errors))
  }
}
