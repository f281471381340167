/** Whole executions of the run lifecycle: what holds whatever the interleaving. */
module RunTheorems {
  import opened RunTable
  import opened RunLifecycle
  import opened RunSafety

  lemma {:induction false} InvAlways(states: seq<State>, steps: seq<Step>, i: nat)
    requires Execution(states, steps) && i < |states|
    ensures Inv(states[i])
  {
    if i > 0 {
      InvAlways(states, steps, i - 1);
      assert StepAt(states, steps, i - 1);
      InvStep(states[i - 1], steps[i - 1]);
    } else {
      assert forall t: TenantId :: ActiveRuns(states[0].runs, t) == {};
    }
  }

  /** No tenant ever has more than two pending or running runs. */
  lemma ConcurrencyLimit(states: seq<State>, steps: seq<Step>, i: nat, tenant: TenantId)
    requires Execution(states, steps) && i < |states|
    ensures |set r | r in states[i].runs && states[i].runs[r].tenant == tenant
                     && states[i].runs[r].status in {Pending, Running}| <= 2
  {
    InvAlways(states, steps, i);
    assert ActiveRuns(states[i].runs, tenant) == set r | r in states[i].runs && states[i].runs[r].tenant == tenant
                                                         && states[i].runs[r].status in {Pending, Running};
  }

  // ---------------------------------------------------------------- statuses and claims

  /** The two-state invariant of every step. */
  ghost predicate Forward(s: State, s': State) {
    && s.issued <= s'.issued && s.now <= s'.now
    && (forall r :: r in s'.runs ==>
          r in s'.issued && (r in s.issued ==> r in s.runs && RowStep(s.runs[r], s'.runs[r])))
  }

  lemma StepsGoForward(states: seq<State>, steps: seq<Step>, i: nat)
    requires Execution(states, steps) && i < |steps|
    ensures Inv(states[i]) && Forward(states[i], states[i + 1])
  {
    InvAlways(states, steps, i);
    InvAlways(states, steps, i + 1);
    assert StepAt(states, steps, i);
    StepKeepsIds(states[i], steps[i]);
    forall r | r in states[i + 1].runs && r in states[i].issued
      ensures r in states[i].runs && RowStep(states[i].runs[r], states[i + 1].runs[r])
    {
      assert !steps[i].Insert? || steps[i].id != r;
      StepKeepsRank(states[i], steps[i], r);
    }
  }

  lemma {:induction false} IssuedGrows(states: seq<State>, steps: seq<Step>, i: nat, j: nat)
    requires Execution(states, steps) && i <= j < |states|
    ensures states[i].issued <= states[j].issued && states[i].now <= states[j].now
  {
    if i < j {
      IssuedGrows(states, steps, i, j - 1);
      StepsGoForward(states, steps, j - 1);
    }
  }

  /** A run found later was there all along once it had been inserted, and its row moved forward. */
  lemma {:induction false} RowsMoveForward(states: seq<State>, steps: seq<Step>, i: nat, j: nat, r: RunId)
    requires Execution(states, steps) && i <= j < |states|
    requires r in states[i].issued && r in states[j].runs
    ensures r in states[i].runs && RowStep(states[i].runs[r], states[j].runs[r])
  {
    if i < j {
      IssuedGrows(states, steps, i, j - 1);
      StepsGoForward(states, steps, j - 1);
      RowsMoveForward(states, steps, i, j - 1, r);
    } else {
      InvAlways(states, steps, j);
    }
  }

  /** Over any execution, the rank of a run's status never falls and pending is never re-entered,
      cancel's and enqueue failure's unguarded writes included. */
  lemma RankNeverFalls(states: seq<State>, steps: seq<Step>, i: nat, j: nat, r: RunId)
    requires Execution(states, steps) && i <= j < |states|
    requires r in states[i].runs && r in states[j].runs
    ensures Rank(states[i].runs[r].status) <= Rank(states[j].runs[r].status)
    ensures states[i].runs[r].status != Pending ==> states[j].runs[r].status != Pending
  {
    InvAlways(states, steps, i);
    RowsMoveForward(states, steps, i, j, r);
  }

  /** The i-th step is a delivery of run r's message that wins the claim. */
  ghost predicate ClaimsAt(states: seq<State>, steps: seq<Step>, i: int, r: RunId) {
    && 0 <= i < |steps| && i < |states|
    && steps[i].Claim? && steps[i].id == r
    && r in states[i].runs && states[i].runs[r].status == Pending
  }

  /** However often a run's message is delivered, one delivery at most wins the claim. */
  lemma ClaimedAtMostOnce(states: seq<State>, steps: seq<Step>, i: nat, j: nat, r: RunId)
    requires Execution(states, steps)
    requires ClaimsAt(states, steps, i, r) && ClaimsAt(states, steps, j, r)
    ensures i == j
  {
    assert StepAt(states, steps, i) && StepAt(states, steps, j);
    if i < j {
      RankNeverFalls(states, steps, i + 1, j, r);
    } else if j < i {
      RankNeverFalls(states, steps, j + 1, i, r);
    }
  }

  /** Once a run has left pending, by a claim, a cancellation or an enqueue failure, or has been
      deleted, every delivery of its message, at any later point, changes nothing at all. */
  lemma DeliveriesAfterPendingAreIgnored(states: seq<State>, steps: seq<Step>, i: nat, j: nat, r: RunId)
    requires Execution(states, steps) && i <= j < |steps| && steps[j].Claim? && steps[j].id == r
    requires r in states[i].issued && (r in states[i].runs ==> states[i].runs[r].status != Pending)
    ensures states[j + 1] == states[j]
  {
    assert StepAt(states, steps, j);
    if r in states[j].runs {
      RowsMoveForward(states, steps, i, j, r);
    }
  }

  /** The winning delivery starts the run's worker, and is the last to have any effect. */
  lemma LaterDeliveriesAreIgnored(states: seq<State>, steps: seq<Step>, i: nat, j: nat, r: RunId)
    requires Execution(states, steps) && ClaimsAt(states, steps, i, r)
    requires i < j < |steps| && steps[j].Claim? && steps[j].id == r
    ensures steps[i].w in states[i + 1].workers && states[i + 1].workers[steps[i].w] == Executing(r)
    ensures r in states[i + 1].runs && states[i + 1].runs[r].status == Running
    ensures states[j + 1] == states[j]
  {
    assert StepAt(states, steps, i);
    InvAlways(states, steps, i + 1);
    DeliveriesAfterPendingAreIgnored(states, steps, i + 1, j, r);
  }

  lemma WorkersAppearByClaiming(states: seq<State>, steps: seq<Step>, i: nat, w: ActorId)
    requires Execution(states, steps) && i < |steps| && w in states[i + 1].workers
    ensures (w in states[i].workers && states[i].workers[w].run == states[i + 1].workers[w].run)
         || (ClaimsAt(states, steps, i, states[i + 1].workers[w].run) && steps[i].w == w)
  {
    assert StepAt(states, steps, i);
  }

  /** A worker executes a run's graph only after winning its claim, and keeps the run for good. */
  lemma {:induction false} WorkersClaimed(states: seq<State>, steps: seq<Step>, i: nat, w: ActorId)
    requires Execution(states, steps) && i < |states| && w in states[i].workers
    ensures exists j :: 0 <= j < i && ClaimsAt(states, steps, j, states[i].workers[w].run) && steps[j].w == w
  {
    var r := states[i].workers[w].run;
    assert i > 0 by { assert states[0].workers == map[]; }
    WorkersAppearByClaiming(states, steps, i - 1, w);
    if !(ClaimsAt(states, steps, i - 1, r) && steps[i - 1].w == w) {
      WorkersClaimed(states, steps, i - 1, w);
    }
  }

  /** Two workers never hold the same run, at any two points of an execution. */
  lemma GraphRunsAtMostOnce(states: seq<State>, steps: seq<Step>, i: nat, j: nat, w: ActorId, v: ActorId)
    requires Execution(states, steps) && i < |states| && j < |states|
    requires w in states[i].workers && v in states[j].workers
    requires states[i].workers[w].run == states[j].workers[v].run
    ensures w == v
  {
    var r := states[i].workers[w].run;
    WorkersClaimed(states, steps, i, w);
    WorkersClaimed(states, steps, j, v);
    var a :| 0 <= a < i && ClaimsAt(states, steps, a, r) && steps[a].w == w;
    var b :| 0 <= b < j && ClaimsAt(states, steps, b, r) && steps[b].w == v;
    ClaimedAtMostOnce(states, steps, a, b, r);
  }

  // ---------------------------------------------------------------- results

  /** The i-th step is the transaction that commits run r's results. */
  ghost predicate SavesAt(states: seq<State>, steps: seq<Step>, i: int, r: RunId) {
    && 0 <= i < |steps| && i < |states|
    && steps[i].Persist? && steps[i].w in states[i].workers && states[i].workers[steps[i].w].run == r
    && r in states[i].runs
  }

  lemma SavedOnlyBySaving(states: seq<State>, steps: seq<Step>, i: nat, r: RunId)
    requires Execution(states, steps) && i < |steps|
    requires r in states[i + 1].runs && ResultsSaved(states[i + 1].runs[r])
    ensures SavesAt(states, steps, i, r) || (r in states[i].runs && ResultsSaved(states[i].runs[r]))
  {
    assert StepAt(states, steps, i);
  }

  lemma {:induction false} SavedBySaving(states: seq<State>, steps: seq<Step>, i: nat, r: RunId)
    requires Execution(states, steps) && i < |states| && r in states[i].runs && ResultsSaved(states[i].runs[r])
    ensures exists j :: 0 <= j < i && SavesAt(states, steps, j, r)
  {
    assert i > 0 by { assert states[0].runs == map[]; }
    SavedOnlyBySaving(states, steps, i - 1, r);
    if !SavesAt(states, steps, i - 1, r) {
      SavedBySaving(states, steps, i - 1, r);
    }
  }

  /** A completed run has had its results committed, and in every reachable state the counters of
      every run agree with its Judgment rows. */
  lemma CompletedRunsHaveResults(states: seq<State>, steps: seq<Step>, i: nat, r: RunId)
    requires Execution(states, steps) && i < |states| && r in states[i].runs
    ensures var run := states[i].runs[r];
      && run.total == run.passed + run.failed == |run.judgments|
      && run.passed == CountPassed(run.judgments)
      && (run.status == Completed ==> exists j :: 0 <= j < i && SavesAt(states, steps, j, r))
  {
    InvAlways(states, steps, i);
    if states[i].runs[r].status == Completed {
      SavedBySaving(states, steps, i, r);
    }
  }

  /** A run is unsaved before the transaction that saves it and saved after it. */
  lemma SavingSaves(states: seq<State>, steps: seq<Step>, i: nat, r: RunId)
    requires Execution(states, steps) && SavesAt(states, steps, i, r)
    ensures !ResultsSaved(states[i].runs[r])
    ensures r in states[i + 1].runs && ResultsSaved(states[i + 1].runs[r])
    ensures states[i + 1].runs[r].judgments == states[i].runs[r].judgments + steps[i].judgments
  {
    InvAlways(states, steps, i);
    assert StepAt(states, steps, i);
    assert WorkerOk(states[i], states[i].workers[steps[i].w]);
  }

  /** Results are committed at most once. */
  lemma ResultsSavedAtMostOnce(states: seq<State>, steps: seq<Step>, i: nat, j: nat, r: RunId)
    requires Execution(states, steps) && SavesAt(states, steps, i, r) && SavesAt(states, steps, j, r)
    ensures i == j
  {
    SavingSaves(states, steps, i, r);
    SavingSaves(states, steps, j, r);
    if i < j {
      InvAlways(states, steps, i + 1);
      RowsMoveForward(states, steps, i + 1, j, r);
    } else if j < i {
      InvAlways(states, steps, j + 1);
      RowsMoveForward(states, steps, j + 1, i, r);
    }
  }
}
