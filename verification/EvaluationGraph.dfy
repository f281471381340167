/** The evaluation graph: five nodes in a row with a budget check on every edge, run with the
    state's reducers, against the worker's own overwriting accumulator. */
module EvaluationGraph {
  import opened Wrappers
  import opened EvaluationState

  datatype Node = Generate | Simulate | Judge | Analyze | Evolution

  const ORDER := [Generate, Simulate, Judge, Analyze, Evolution]

  predicate BudgetExceeded(s: State, budget: real) { s.cost > budget }

  function RouteAfterGeneration(s: State, budget: real): Option<Node> {
    if BudgetExceeded(s, budget) || s.scenarios == [] then None else Some(Simulate)
  }

  function RouteAfterSimulation(s: State, budget: real): Option<Node> {
    if BudgetExceeded(s, budget) || s.traces == [] then None else Some(Judge)
  }

  function RouteAfterJudgment(s: State, budget: real): Option<Node> {
    if BudgetExceeded(s, budget) then None else Some(Analyze)
  }

  function RouteAfterAnalyze(s: State, budget: real): Option<Node> {
    if BudgetExceeded(s, budget) then None else Some(Evolution)
  }

  /** The edges; None is END. */
  function Next(node: Node, s: State, budget: real): Option<Node> {
    match node
    case Generate => RouteAfterGeneration(s, budget)
    case Simulate => RouteAfterSimulation(s, budget)
    case Judge => RouteAfterJudgment(s, budget)
    case Analyze => RouteAfterAnalyze(s, budget)
    case Evolution => None
  }

  function Position(node: Node): nat {
    match node
    case Generate => 0 case Simulate => 1 case Judge => 2 case Analyze => 3 case Evolution => 4
  }

  /** One executed node: the merged state before it, what it returned, the merged state after it. */
  datatype Visit = Visit(node: Node, before: State, update: Update, after: State)

  /** The graph's execution from a node on, when each node returns what `outcome` says. */
  function Execute(node: Node, s: State, budget: real, outcome: Node -> Update): seq<Visit>
    decreases 5 - Position(node)
  {
    var visit := Visit(node, s, outcome(node), Merge(s, outcome(node)));
    var next := Next(node, visit.after, budget);
    [visit] + if next.Some? && Position(next.value) == Position(node) + 1
              then Execute(next.value, visit.after, budget, outcome) else []
  }

  /** What each node writes: one list of its own, or the drift profile, and nobody else's. */
  predicate WritesItsOwn(node: Node, u: Update) {
    && (node.Generate? || u.scenarios == None)
    && (node.Simulate? || u.traces == None)
    && (node.Judge? || u.judgments == None)
    && (node.Evolution? || u.suggestions == None)
    && (node.Analyze? || u.drift == None)
    && CostOf(u) >= 0.0
  }

  function Cost(visits: seq<Visit>): real {
    if visits == [] then 0.0 else CostOf(visits[0].update) + Cost(visits[1..])
  }

  /** Visit i ends in the merged state, and follows its predecessor: one position further, from the
      state it left, within budget and with the data its node needs. */
  predicate Follows(visits: seq<Visit>, i: int, budget: real)
    requires 0 <= i < |visits|
  {
    && visits[i].after == Merge(visits[i].before, visits[i].update)
    && (i > 0 ==>
          && visits[i].before == visits[i - 1].after
          && Position(visits[i].node) == Position(visits[i - 1].node) + 1
          && visits[i].before.cost <= budget
          && (visits[i].node.Simulate? ==> visits[i].before.scenarios != [])
          && (visits[i].node.Judge? ==> visits[i].before.traces != []))
  }

  predicate Consecutive(visits: seq<Visit>, budget: real) {
    forall i :: 0 <= i < |visits| ==> Follows(visits, i, budget)
  }

  /** What a whole execution looks like, without reference to how it is computed. */
  ghost predicate IsExecution(v: seq<Visit>, start: Node, s: State, budget: real, outcome: Node -> Update) {
    && |v| > 0 && v[0].node == start && v[0].before == s
    && Consecutive(v, budget)
    && (forall i :: 0 <= i < |v| ==> v[i].update == outcome(v[i].node))
    && Next(v[|v| - 1].node, v[|v| - 1].after, budget) == None
  }

  lemma {:induction false} ExecuteIsExecution(node: Node, s: State, budget: real, outcome: Node -> Update)
    ensures IsExecution(Execute(node, s, budget, outcome), node, s, budget, outcome)
    decreases 5 - Position(node)
  {
    var first := Visit(node, s, outcome(node), Merge(s, outcome(node)));
    var next := Next(node, first.after, budget);
    if next.Some? {
      ExecuteIsExecution(next.value, first.after, budget, outcome);
      var rest := Execute(next.value, first.after, budget, outcome);
      var v := [first] + rest;
      forall i | 0 <= i < |v| ensures Follows(v, i, budget) {
        if i > 0 {
          assert v[i] == rest[i - 1] && Follows(rest, i - 1, budget);
          assert i > 1 ==> v[i - 1] == rest[i - 2];
        }
      }
    }
  }

  lemma {:induction false} CostIsTheSum(v: seq<Visit>, budget: real, i: nat)
    requires Consecutive(v, budget) && i < |v|
    ensures v[i].after.cost == v[0].before.cost + Cost(v[..i + 1])
  {
    CostAppend(v[..i], v[i]);
    assert v[..i + 1] == v[..i] + [v[i]];
    assert Follows(v, i, budget);
    if i > 0 {
      CostIsTheSum(v, budget, i - 1);
    }
  }

  lemma {:induction false} CostAppend(v: seq<Visit>, last: Visit)
    ensures Cost(v + [last]) == Cost(v) + CostOf(last.update)
  {
    if v != [] {
      assert (v + [last])[1..] == v[1..] + [last];
      CostAppend(v[1..], last);
    }
  }

  /** Every execution of the graph visits a prefix of generate, simulate, judge, analyze, evolution;
      the cost after each node is the sum of the costs so far; and every node but the first is
      entered with that sum within the budget, so an overshoot is the last node's doing. */
  lemma {:induction false} GraphWithinBudget(v: seq<Visit>, budget: real, outcome: Node -> Update)
    requires IsExecution(v, Generate, INITIAL, budget, outcome)
    ensures 1 <= |v| <= 5
    ensures forall i :: 0 <= i < |v| ==> v[i].node == ORDER[i]
    ensures forall i :: 0 <= i < |v| ==> v[i].after.cost == Cost(v[..i + 1])
    ensures forall i :: 0 < i < |v| ==> Cost(v[..i]) <= budget
  {
    Prefix(v, budget);
    forall i | 0 <= i < |v| ensures v[i].after.cost == Cost(v[..i + 1]) {
      CostIsTheSum(v, budget, i);
    }
    forall i | 0 < i < |v| ensures Cost(v[..i]) <= budget {
      CostIsTheSum(v, budget, i - 1);
      assert Follows(v, i, budget);
    }
  }

  /** It goes on past generate only with scenarios and past simulate only with traces, and stops
      before evolution only without them or over budget. */
  lemma {:induction false} GraphStopsOnlyFor(v: seq<Visit>, budget: real, outcome: Node -> Update)
    requires IsExecution(v, Generate, INITIAL, budget, outcome)
    ensures |v| >= 2 ==> v[0].after.scenarios != []
    ensures |v| >= 3 ==> v[1].after.traces != []
    ensures |v| < 5 ==>
        || Cost(v) > budget
        || (|v| == 1 && v[0].after.scenarios == [])
        || (|v| == 2 && v[1].after.traces == [])
  {
    var last := |v| - 1;
    PositionIs(v, budget, last);
    CostIsTheSum(v, budget, last);
    assert v[..last + 1] == v;
    assert |v| >= 2 ==> Follows(v, 1, budget);
    assert |v| >= 3 ==> Follows(v, 2, budget);
  }

  lemma Prefix(v: seq<Visit>, budget: real)
    requires |v| > 0 && v[0].node == Generate && Consecutive(v, budget)
    ensures |v| <= 5 && forall i :: 0 <= i < |v| ==> v[i].node == ORDER[i]
  {
    forall i | 0 <= i < |v| ensures Position(v[i].node) == i {
      PositionIs(v, budget, i);
    }
    assert Position(v[|v| - 1].node) == |v| - 1;
  }

  lemma {:induction false} PositionIs(v: seq<Visit>, budget: real, i: nat)
    requires |v| > 0 && v[0].node == Generate && Consecutive(v, budget) && i < |v|
    ensures Position(v[i].node) == i
  {
    if i > 0 {
      PositionIs(v, budget, i - 1);
      assert Follows(v, i, budget);
    }
  }

  // ---------------------------------------------------------------- the worker's accumulator

  /** The worker's state after the first n visited nodes. */
  function Accumulated(v: seq<Visit>): State {
    if v == [] then INITIAL else Overwrite(Accumulated(v[..|v| - 1]), v[|v| - 1].update)
  }

  /** The five fields that overwriting keeps. */
  predicate SameResults(a: State, b: State) {
    a.scenarios == b.scenarios && a.traces == b.traces && a.judgments == b.judgments &&
    a.suggestions == b.suggestions && a.drift == b.drift
  }

  /** A list nobody has written yet is still empty. */
  predicate Fresh(s: State, position: nat) {
    && (position <= 0 ==> s.scenarios == [])
    && (position <= 1 ==> s.traces == [])
    && (position <= 2 ==> s.judgments == [])
    && (position <= 4 ==> s.suggestions == [])
  }

  /** After every event the worker's overwriting accumulator holds the graph's own scenarios,
      traces, judgments, suggestions and drift profile. */
  lemma {:induction false} AccumulatorKeepsResults(v: seq<Visit>, budget: real, outcome: Node -> Update, n: nat)
    requires IsExecution(v, Generate, INITIAL, budget, outcome) && 0 < n <= |v|
    requires forall i :: 0 <= i < |v| ==> WritesItsOwn(v[i].node, v[i].update)
    ensures SameResults(Accumulated(v[..n]), v[n - 1].after) && Fresh(v[n - 1].after, n)
  {
    PositionIs(v, budget, n - 1);
    assert Follows(v, n - 1, budget);
    if n > 1 {
      AccumulatorKeepsResults(v, budget, outcome, n - 1);
    }
    assert SameResults(Accumulated(v[..n - 1]), v[n - 1].before);
    OneWriter(v[n - 1], Accumulated(v[..n - 1]), n - 1);
    AccumulatedStep(v, n - 1);
  }

  lemma AccumulatedStep(v: seq<Visit>, i: nat)
    requires i < |v|
    ensures Accumulated(v[..i + 1]) == Overwrite(Accumulated(v[..i]), v[i].update)
  {
    assert v[..i + 1][..i] == v[..i];
  }

  /** A node that writes only its own, still unwritten list: adding and overwriting agree. */
  lemma OneWriter(visit: Visit, acc: State, position: nat)
    requires visit.after == Merge(visit.before, visit.update) && Position(visit.node) == position
    requires WritesItsOwn(visit.node, visit.update)
    requires SameResults(acc, visit.before) && Fresh(visit.before, position)
    ensures SameResults(Overwrite(acc, visit.update), visit.after) && Fresh(visit.after, position + 1)
  {
  }

  /** The last node to report a cost, if any. */
  function LastReporter(v: seq<Visit>): Option<nat> {
    if v == [] then None
    else if v[|v| - 1].update.cost.Some? then Some(|v| - 1)
    else LastReporter(v[..|v| - 1])
  }

  /** Its running cost is another matter: it is the last reported cost, which is the graph's total
      if and only if everything reported before it was free. */
  lemma {:induction false} AccumulatedCostAgreesIff(v: seq<Visit>)
    ensures LastReporter(v) == None ==> Accumulated(v).cost == Cost(v) == 0.0
    ensures LastReporter(v).Some? ==>
      && LastReporter(v).value < |v|
      && Accumulated(v).cost == Cost(v) - Cost(v[..LastReporter(v).value])
      && (Accumulated(v).cost == Cost(v) <==> Cost(v[..LastReporter(v).value]) == 0.0)
  {
    if v != [] {
      var n := |v| - 1;
      assert v == v[..n] + [v[n]];
      CostAppend(v[..n], v[n]);
      AccumulatedCostAgreesIff(v[..n]);
      if LastReporter(v[..n]).Some? {
        assert v[..n][..LastReporter(v[..n]).value] == v[..LastReporter(v[..n]).value];
      }
    }
  }

  /** The graph's other sums: turns, and one of its lists, end to end. */
  function Turns(v: seq<Visit>): nat {
    if v == [] then 0 else Or(v[0].update.turns, 0) + Turns(v[1..])
  }

  function Gathered<T>(v: seq<Visit>, part: Update -> Option<seq<T>>): seq<T> {
    if v == [] then [] else Or(part(v[0].update), []) + Gathered(v[1..], part)
  }

  lemma {:induction false} TurnsOfPrefix(v: seq<Visit>, i: nat)
    requires i < |v|
    ensures Turns(v[..i + 1]) == Turns(v[..i]) + Or(v[i].update.turns, 0)
  {
    if i == 0 {
      assert v[..1] == [v[0]] && v[..1][1..] == [];
    } else {
      TurnsOfPrefix(v[1..], i - 1);
      assert v[..i + 1][1..] == v[1..][..i] && v[..i][1..] == v[1..][..i - 1];
    }
  }

  lemma {:induction false} GatheredOfPrefix<T>(v: seq<Visit>, i: nat, part: Update -> Option<seq<T>>)
    requires i < |v|
    ensures Gathered(v[..i + 1], part) == Gathered(v[..i], part) + Or(part(v[i].update), [])
  {
    if i == 0 {
      assert v[..1] == [v[0]] && v[..1][1..] == [];
    } else {
      GatheredOfPrefix(v[1..], i - 1, part);
      assert v[..i + 1][1..] == v[1..][..i] && v[..i][1..] == v[1..][..i - 1];
    }
  }

  /** After each node the graph's state holds the turns of all the nodes so far, and any list whose
      reducer is concatenation holds what they all returned, in order, whichever nodes write it. */
  lemma {:induction false} TurnsAddUp(v: seq<Visit>, budget: real, outcome: Node -> Update, i: nat)
    requires IsExecution(v, Generate, INITIAL, budget, outcome) && i < |v|
    ensures v[i].after.turns == Turns(v[..i + 1])
  {
    TurnsOfPrefix(v, i);
    assert Follows(v, i, budget);
    if i > 0 {
      TurnsAddUp(v, budget, outcome, i - 1);
    }
  }

  ghost predicate Adds<T>(part: Update -> Option<seq<T>>, field: State -> seq<T>) {
    field(INITIAL) == [] && forall s, u :: field(Merge(s, u)) == field(s) + Or(part(u), [])
  }

  lemma {:induction false} ListAddsUp<T>(v: seq<Visit>, budget: real, outcome: Node -> Update, i: nat,
                                         part: Update -> Option<seq<T>>, field: State -> seq<T>)
    requires IsExecution(v, Generate, INITIAL, budget, outcome) && i < |v| && Adds(part, field)
    ensures field(v[i].after) == Gathered(v[..i + 1], part)
  {
    GatheredOfPrefix(v, i, part);
    assert Follows(v, i, budget);
    assert field(Merge(v[i].before, v[i].update)) == field(v[i].before) + Or(part(v[i].update), []);
    if i > 0 {
      ListAddsUp(v, budget, outcome, i - 1, part, field);
    }
  }

  /** The five lists of the state are such lists. */
  lemma ListsAddUp(v: seq<Visit>, budget: real, outcome: Node -> Update, i: nat)
    requires IsExecution(v, Generate, INITIAL, budget, outcome) && i < |v|
    ensures v[i].after.scenarios == Gathered(v[..i + 1], (u: Update) => u.scenarios)
    ensures v[i].after.traces == Gathered(v[..i + 1], (u: Update) => u.traces)
    ensures v[i].after.judgments == Gathered(v[..i + 1], (u: Update) => u.judgments)
    ensures v[i].after.suggestions == Gathered(v[..i + 1], (u: Update) => u.suggestions)
    ensures v[i].after.errors == Gathered(v[..i + 1], (u: Update) => u.errors)
  {
    ListAddsUp(v, budget, outcome, i, (u: Update) => u.scenarios, (s: State) => s.scenarios);
    ListAddsUp(v, budget, outcome, i, (u: Update) => u.traces, (s: State) => s.traces);
    ListAddsUp(v, budget, outcome, i, (u: Update) => u.judgments, (s: State) => s.judgments);
    ListAddsUp(v, budget, outcome, i, (u: Update) => u.suggestions, (s: State) => s.suggestions);
    ListAddsUp(v, budget, outcome, i, (u: Update) => u.errors, (s: State) => s.errors);
  }

  /** The worker's own turns and errors are those of the last node that reported any. */
  lemma {:induction false} AccumulatorKeepsTheLast(v: seq<Visit>, i: nat)
    requires i < |v|
    ensures v[i].update.turns.Some? && (forall j :: i < j < |v| ==> v[j].update.turns == None) ==>
              Accumulated(v).turns == v[i].update.turns.value
    ensures v[i].update.errors.Some? && (forall j :: i < j < |v| ==> v[j].update.errors == None) ==>
              Accumulated(v).errors == v[i].update.errors.value
  {
    var n := |v| - 1;
    if i < n {
      AccumulatorKeepsTheLast(v[..n], i);
    }
  }

  lemma {:induction false} NothingReported(v: seq<Visit>)
    ensures (forall j :: 0 <= j < |v| ==> v[j].update.turns == None) ==> Accumulated(v).turns == 0
    ensures (forall j :: 0 <= j < |v| ==> v[j].update.errors == None) ==> Accumulated(v).errors == []
  {
    if v != [] {
      NothingReported(v[..|v| - 1]);
    }
  }
}
