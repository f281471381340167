/** Which run an analysis is compared with: the pinned baseline of the agent, or the oldest run
    with a good average score. */
module Baseline {
  import opened Wrappers
  import opened RunTable
  import opened RunLifecycle
  import opened RunTheorems

  predicate IsPinned(runs: Table, t: TenantId, a: AgentId, r: RunId) {
    r in runs && runs[r].tenant == t && runs[r].agent == a && runs[r].isBaseline
  }

  /** Note the test on the id, which the query for pinned runs does not have. */
  predicate IsFallback(runs: Table, t: TenantId, a: AgentId, self: RunId, r: RunId) {
    && r in runs && runs[r].tenant == t && runs[r].agent == a
    && runs[r].avgScore.Some? && runs[r].avgScore.value >= 80.0 && r != self
  }

  /** The row picked before the embedding model is looked at: the newest pinned run, else the
      oldest fallback; rows with equal timestamps may come in any order. */
  ghost predicate Picks(runs: Table, t: TenantId, a: AgentId, self: RunId, pick: Option<RunId>) {
    if exists r :: IsPinned(runs, t, a, r) then
      && pick.Some? && IsPinned(runs, t, a, pick.value)
      && forall r :: IsPinned(runs, t, a, r) ==> runs[r].createdAt <= runs[pick.value].createdAt
    else if exists r :: IsFallback(runs, t, a, self, r) then
      && pick.Some? && IsFallback(runs, t, a, self, pick.value)
      && forall r :: IsFallback(runs, t, a, self, r) ==> runs[pick.value].createdAt <= runs[r].createdAt
    else pick == None
  }

  /** The answer: none if nothing was picked or the pick used another embedding model. */
  ghost predicate Resolves(runs: Table, t: TenantId, a: AgentId, self: RunId, answer: Option<RunId>) {
    exists pick :: Picks(runs, t, a, self, pick) &&
      answer == if pick.Some? && pick.value in runs && ResultsSaved(runs[pick.value]) then pick else None
  }

  method ResolveBaseline(runs: Table, t: TenantId, a: AgentId, self: RunId) returns (answer: Option<RunId>)
    ensures Resolves(runs, t, a, self, answer)
    ensures answer.Some? ==>
      && answer.value in runs && runs[answer.value].tenant == t && runs[answer.value].agent == a
      && runs[answer.value].embeddingVersion == Some("text-embedding-3-small")
    ensures answer.Some? && runs[answer.value].isBaseline ==>
      forall q :: q in runs && runs[q].tenant == t && runs[q].agent == a && runs[q].isBaseline ==>
        runs[q].createdAt <= runs[answer.value].createdAt
    ensures answer.Some? && !runs[answer.value].isBaseline ==>
      && answer.value != self && runs[answer.value].avgScore.Some? && runs[answer.value].avgScore.value >= 80.0
      && (forall q :: q in runs && runs[q].tenant == t && runs[q].agent == a ==> !runs[q].isBaseline)
      && (forall q :: (q in runs && runs[q].tenant == t && runs[q].agent == a && q != self
                       && runs[q].avgScore.Some? && runs[q].avgScore.value >= 80.0) ==>
            runs[answer.value].createdAt <= runs[q].createdAt)
  {
    var pick: Option<RunId> := None;
    var todo := runs.Keys;
    while todo != {}
      invariant todo <= runs.Keys
      invariant pick.Some? ==> IsPinned(runs, t, a, pick.value)
      invariant forall r :: IsPinned(runs, t, a, r) && r !in todo ==>
                  pick.Some? && runs[r].createdAt <= runs[pick.value].createdAt
      decreases todo
    {
      var r :| r in todo;
      todo := todo - {r};
      if IsPinned(runs, t, a, r) && (pick == None || runs[pick.value].createdAt < runs[r].createdAt) {
        pick := Some(r);
      }
    }
    if pick == None {
      todo := runs.Keys;
      while todo != {}
        invariant todo <= runs.Keys
        invariant pick.Some? ==> IsFallback(runs, t, a, self, pick.value)
        invariant forall r :: IsFallback(runs, t, a, self, r) && r !in todo ==>
                    pick.Some? && runs[pick.value].createdAt <= runs[r].createdAt
        decreases todo
      {
        var r :| r in todo;
        todo := todo - {r};
        if IsFallback(runs, t, a, self, r) && (pick == None || runs[r].createdAt < runs[pick.value].createdAt) {
          pick := Some(r);
        }
      }
    }
    assert Picks(runs, t, a, self, pick);
    assert forall q :: q in runs && runs[q].tenant == t && runs[q].agent == a && runs[q].isBaseline ==>
      IsPinned(runs, t, a, q);
    assert forall q :: (q in runs && runs[q].tenant == t && runs[q].agent == a && q != self
                        && runs[q].avgScore.Some? && runs[q].avgScore.value >= 80.0) ==>
      IsFallback(runs, t, a, self, q);
    if pick.Some? && runs[pick.value].embeddingVersion != Some(EMBEDDING_MODEL) {
      return None;
    }
    return pick;
  }

  /** A run being analysed is never resolved as its own baseline, in any reachable state. */
  lemma NeverItsOwnBaseline(states: seq<State>, steps: seq<Step>, i: nat, w: ActorId, answer: Option<RunId>)
    requires Execution(states, steps) && i < |states| && w in states[i].workers && states[i].workers[w].Executing?
    requires states[i].workers[w].run in states[i].runs
    requires var r := states[i].workers[w].run;
      Resolves(states[i].runs, states[i].runs[r].tenant, states[i].runs[r].agent, r, answer)
    ensures answer != Some(states[i].workers[w].run)
  {
    InvAlways(states, steps, i);
    var r := states[i].workers[w].run;
    assert WorkerOk(states[i], states[i].workers[w]);
    assert RowOk(states[i].runs[r], states[i].now);
  }

  /** In a reachable state the answer is none only when there is no candidate at all: every
      candidate was embedded with the current model, so that check never rejects one. */
  lemma CandidatesAreNeverRejected(states: seq<State>, steps: seq<Step>, i: nat, t: TenantId, a: AgentId,
                                   self: RunId, answer: Option<RunId>)
    requires Execution(states, steps) && i < |states| && Resolves(states[i].runs, t, a, self, answer)
    ensures Picks(states[i].runs, t, a, self, answer)
    ensures answer == None <==>
        forall r :: r in states[i].runs && states[i].runs[r].tenant == t && states[i].runs[r].agent == a ==>
          && !states[i].runs[r].isBaseline
          && (r == self || states[i].runs[r].avgScore == None || states[i].runs[r].avgScore.value < 80.0)
  {
    InvAlways(states, steps, i);
    var runs := states[i].runs;
    var pick :| Picks(runs, t, a, self, pick) &&
      answer == if pick.Some? && pick.value in runs && ResultsSaved(runs[pick.value]) then pick else None;
    if pick.Some? {
      assert RowOk(runs[pick.value], states[i].now);
      assert IsPinned(runs, t, a, pick.value) || IsFallback(runs, t, a, self, pick.value);
    } else {
      forall r | r in runs && runs[r].tenant == t && runs[r].agent == a
        ensures !IsPinned(runs, t, a, r) && !IsFallback(runs, t, a, self, r)
      {
      }
    }
  }

  /** With a pinned run the answer is unique, whatever order the query returns its rows in. */
  lemma PinnedAnswerIsUnique(states: seq<State>, steps: seq<Step>, i: nat, t: TenantId, a: AgentId,
                             self: RunId, x: RunId, answer: Option<RunId>)
    requires Execution(states, steps) && i < |states|
    requires IsPinned(states[i].runs, t, a, x) && Resolves(states[i].runs, t, a, self, answer)
    ensures answer == Some(x)
  {
    InvAlways(states, steps, i);
    CandidatesAreNeverRejected(states, steps, i, t, a, self, answer);
  }

  // ---------------------------------------------------------------- two pin requests at once

  /** The two statements of a pin request, each taking place when other transactions see it. */
  datatype PinOp = Clear | SetPin(run: RunId)

  function AfterOps(runs: Table, t: TenantId, a: AgentId, ops: seq<PinOp>, now: int): Table
    decreases |ops|
  {
    if ops == [] then runs else
      var before := AfterOps(runs, t, a, ops[..|ops| - 1], now);
      match ops[|ops| - 1]
      case Clear => Unpinned(before, t, a, now)
      case SetPin(r) => PinSet(before, r, now)
  }

  /** An interleaving of the requests [Clear, SetPin(p)] and [Clear, SetPin(q)]. */
  predicate Interleaves(ops: seq<PinOp>, p: RunId, q: RunId) {
    || ops == [Clear, SetPin(p), Clear, SetPin(q)]
    || ops == [Clear, SetPin(q), Clear, SetPin(p)]
    || ops == [Clear, Clear, SetPin(p), SetPin(q)]
    || ops == [Clear, Clear, SetPin(q), SetPin(p)]
  }

  /** Run r is set after the last clearing, or was pinned at first and never cleared. */
  predicate SetSinceCleared(ops: seq<PinOp>, r: RunId, initially: bool) {
    if ops == [] then initially else
      var last := ops[|ops| - 1];
      last == SetPin(r) || (last != Clear && SetSinceCleared(ops[..|ops| - 1], r, initially))
  }

  /** Which runs of the agent are pinned after any sequence of such statements. */
  lemma {:induction false} PinnedAfterOps(runs: Table, t: TenantId, a: AgentId, ops: seq<PinOp>, now: int, r: RunId)
    requires r in runs && runs[r].tenant == t && runs[r].agent == a
    ensures var after := AfterOps(runs, t, a, ops, now);
      && r in after && after[r].tenant == t && after[r].agent == a
      && (IsPinned(after, t, a, r) <==> SetSinceCleared(ops, r, runs[r].isBaseline))
    decreases |ops|
  {
    if ops != [] {
      PinnedAfterOps(runs, t, a, ops[..|ops| - 1], now, r);
    }
  }

  /** Two requests for different runs of an agent leave just one of them pinned if and only if they
      do not overlap, that is, if one has set its pin before the other clears. */
  lemma {:induction false} OnePinIffSerial(runs: Table, t: TenantId, a: AgentId, p: RunId, q: RunId, ops: seq<PinOp>,
                                           now: int)
    requires p in runs && runs[p].tenant == t && runs[p].agent == a
    requires q in runs && runs[q].tenant == t && runs[q].agent == a
    requires p != q && Interleaves(ops, p, q)
    ensures var after := AfterOps(runs, t, a, ops, now);
      (IsPinned(after, t, a, p) != IsPinned(after, t, a, q)) <==> ops[1] != Clear
  {
    PinnedAfterOps(runs, t, a, ops, now, p);
    PinnedAfterOps(runs, t, a, ops, now, q);
    FourOps(ops, p, runs[p].isBaseline);
    FourOps(ops, q, runs[q].isBaseline);
  }

  lemma {:induction false} FourOps(ops: seq<PinOp>, r: RunId, initially: bool)
    requires |ops| == 4 && ops[0] == Clear
    ensures SetSinceCleared(ops, r, initially) <==>
      ops[3] == SetPin(r) || (ops[3] != Clear && (ops[2] == SetPin(r) || (ops[2] != Clear && ops[1] == SetPin(r))))
  {
    assert ops[..3][..2] == ops[..2] && ops[..2][..1] == ops[..1];
    assert SetSinceCleared(ops[..1], r, initially) == false;
    assert SetSinceCleared(ops[..2], r, initially) <==> ops[1] == SetPin(r);
    assert SetSinceCleared(ops[..3], r, initially) <==>
        ops[2] == SetPin(r) || (ops[2] != Clear && SetSinceCleared(ops[..2], r, initially));
  }
}
