/** The run table column by column: what each step of the lifecycle does to each column of a row,
    written out without the statements that do it, and what that means over executions. */
module RunColumns {
  import opened Wrappers
  import opened RunTable
  import opened RunLifecycle
  import opened RunSafety
  import opened RunTheorems

  /** The step is a statement about row r alone. */
  predicate Targets(s: State, step: Step, r: RunId)
    requires Enabled(s, step)
  {
    match step
    case EnqueueFailed(c) => s.creators[c].run == r
    case Claim(_, id) => id == r && r in s.runs && s.runs[r].status == Pending
    case Persist(w, _, _) => s.workers[w].run == r
    case TerminalWrite(w) => s.workers[w].run == r && r in s.runs && s.runs[r].status in {Running, Cancelled}
    case BeatWrite(w, _) => s.workers[w].run == r
    case CancelWrite(k) => s.cancellers[k] == r
    case PinCommit(p) => s.pins[p] == r
    case _ => false
  }

  /** A sweep selects it: running, and silent for longer than the cutoff allows. */
  predicate SweptBy(run: Run, step: Step) {
    && step.Sweep? && run.status == Running
    && match run.heartbeatAt
       case Some(beat) => beat < step.cutoff
       case None => run.startedAt.Some? && run.startedAt.value < step.cutoff
  }

  /** It loses its pin to another run of its tenant and agent. */
  predicate LosesPin(s: State, step: Step, r: RunId)
    requires Enabled(s, step) && r in s.runs
  {
    && step.PinCommit? && s.pins[step.p] in s.runs && s.pins[step.p] != r && s.runs[r].isBaseline
    && s.runs[r].tenant == s.runs[s.pins[step.p]].tenant && s.runs[r].agent == s.runs[s.pins[step.p]].agent
  }

  /** The rows there are. */
  lemma KeysAfter(s: State, step: Step)
    requires Enabled(s, step)
    ensures TableAfter(s, step).Keys
         == s.runs.Keys + (if step.Insert? then {step.id} else {}) - (if step.Delete? then {step.id} else {})
  {
  }

  predicate Survives(s: State, step: Step, r: RunId) {
    r in s.runs && (step.Insert? ==> step.id != r) && (step.Delete? ==> step.id != r)
  }

  lemma StatusAfter(s: State, step: Step, r: RunId)
    requires Enabled(s, step) && Survives(s, step, r)
    ensures r in TableAfter(s, step)
    ensures TableAfter(s, step)[r].status ==
      if SweptBy(s.runs[r], step) then Failed
      else if !Targets(s, step, r) then s.runs[r].status
      else match step
        case EnqueueFailed(_) => Failed
        case Claim(_, _) => Running
        case TerminalWrite(w) => s.workers[w].verdict
        case CancelWrite(_) => Cancelled
        case _ => s.runs[r].status
  {
  }

  lemma PinAfter(s: State, step: Step, r: RunId)
    requires Enabled(s, step) && Survives(s, step, r)
    ensures r in TableAfter(s, step)
    ensures TableAfter(s, step)[r].isBaseline ==
      if step.PinCommit? && s.pins[step.p] == r then true else s.runs[r].isBaseline && !LosesPin(s, step, r)
  {
  }

  lemma BeatAfter(s: State, step: Step, r: RunId)
    requires Enabled(s, step) && Survives(s, step, r)
    ensures r in TableAfter(s, step)
    ensures TableAfter(s, step)[r].heartbeatAt ==
      if step.BeatWrite? && s.workers[step.w].run == r then Some(step.at) else s.runs[r].heartbeatAt
  {
  }

  lemma ResultsAfter(s: State, step: Step, r: RunId)
    requires Enabled(s, step) && Survives(s, step, r)
    ensures r in TableAfter(s, step)
    ensures var old_, new_ := s.runs[r], TableAfter(s, step)[r];
      if step.Persist? && s.workers[step.w].run == r then
        && new_.judgments == old_.judgments + step.judgments
        && new_.total == old_.total + |step.judgments|
        && new_.passed == old_.passed + CountPassed(step.judgments)
        && new_.failed - old_.failed == |step.judgments| - CountPassed(step.judgments)
        && new_.avgScore == (if step.avg.Some? then step.avg else old_.avgScore)
        && new_.embeddingVersion == Some("text-embedding-3-small")
      else
        && new_.judgments == old_.judgments && new_.avgScore == old_.avgScore
        && (new_.total, new_.passed, new_.failed) == (old_.total, old_.passed, old_.failed)
        && new_.embeddingVersion == old_.embeddingVersion
  {
    if step.Persist? {
      CountPassedAppend(step.judgments, []);
    }
  }

  lemma StampsAfter(s: State, step: Step, r: RunId)
    requires Enabled(s, step) && Survives(s, step, r)
    ensures r in TableAfter(s, step)
    ensures var old_, new_ := s.runs[r], TableAfter(s, step)[r];
      && (new_.tenant, new_.agent) == (old_.tenant, old_.agent)
      && (new_.createdAt, new_.startedAt) == (old_.createdAt, old_.startedAt)
      && new_.updatedAt ==
         if Targets(s, step, r) || SweptBy(old_, step) || LosesPin(s, step, r) then s.now else old_.updatedAt
  {
  }

  /** The judgments that passed. */
  function PassedOnes(judgments: seq<bool>): set<int> { set i | 0 <= i < |judgments| && judgments[i] }

  /** CountPassed is their number. */
  lemma {:induction false} PassedAreCounted(judgments: seq<bool>)
    ensures CountPassed(judgments) == |PassedOnes(judgments)|
  {
    if judgments == [] {
      assert PassedOnes(judgments) == {};
    } else {
      var n := |judgments| - 1;
      PassedAreCounted(judgments[..n]);
      assert judgments == judgments[..n] + [judgments[n]] && [judgments[n]][1..] == [];
      CountPassedAppend(judgments[..n], [judgments[n]]);
      assert PassedOnes(judgments) == PassedOnes(judgments[..n]) + (if judgments[n] then {n} else {});
    }
  }

  // ---------------------------------------------------------------- over executions

  /** A run that survives a step loses its pin only to another run of its own tenant and agent. */
  lemma PinsAreLostOnlyToTheirAgent(states: seq<State>, steps: seq<Step>, i: nat, r: RunId)
    requires Execution(states, steps) && i < |steps| && r in states[i].runs && r in states[i + 1].runs
    requires states[i].runs[r].isBaseline && !states[i + 1].runs[r].isBaseline
    ensures steps[i].PinCommit? && steps[i].p in states[i].pins
    ensures var p := states[i].pins[steps[i].p];
      && p in states[i].runs && p != r && p in states[i + 1].runs && states[i + 1].runs[p].isBaseline
      && states[i].runs[p].tenant == states[i].runs[r].tenant && states[i].runs[p].agent == states[i].runs[r].agent
  {
    InvAlways(states, steps, i);
    assert StepAt(states, steps, i);
    AppliesTable(states[i], steps[i]);
    KeysAfter(states[i], steps[i]);
    PinAfter(states[i], steps[i], r);
    assert LosesPin(states[i], steps[i], r);
    PinAfter(states[i], steps[i], states[i].pins[steps[i].p]);
  }

  /** Nobody's clock runs ahead of the row's. */
  lemma {:induction false} UpdatedInThePast(states: seq<State>, steps: seq<Step>, i: nat, r: RunId)
    requires Execution(states, steps) && i < |states| && r in states[i].runs
    ensures states[i].runs[r].updatedAt <= states[i].now
  {
    assert i > 0 by { assert states[0].runs == map[]; }
    var before, step := states[i - 1], steps[i - 1];
    assert StepAt(states, steps, i - 1);
    AppliesTable(before, step);
    KeysAfter(before, step);
    if r in before.runs && !(step.Insert? && step.id == r) {
      UpdatedInThePast(states, steps, i - 1, r);
      StampsAfter(before, step, r);
    } else {
      assert TableAfter(before, step)[r].updatedAt == before.now;
    }
  }

  lemma {:induction false} UpdatedGrows(states: seq<State>, steps: seq<Step>, i: nat, j: nat, r: RunId)
    requires Execution(states, steps) && i <= j < |states| && r in states[i].runs && r in states[j].runs
    ensures states[i].runs[r].updatedAt <= states[j].runs[r].updatedAt
  {
    if i < j {
      InvAlways(states, steps, i);
      InvAlways(states, steps, j - 1);
      IssuedGrows(states, steps, i, j - 1);
      RowsMoveForward(states, steps, j - 1, j, r);
      UpdatedGrows(states, steps, i, j - 1, r);
      UpdatedInThePast(states, steps, j - 1, r);
      assert StepAt(states, steps, j - 1);
      AppliesTable(states[j - 1], steps[j - 1]);
      KeysAfter(states[j - 1], steps[j - 1]);
      StampsAfter(states[j - 1], steps[j - 1], r);
    }
  }

  /** The clean-up leaves a run alone for an hour after its status was last written. */
  lemma FreshEndingsAreNotOrphans(states: seq<State>, steps: seq<Step>, i: nat, j: nat, r: RunId)
    requires Execution(states, steps) && i < j < |states| && r in states[i].runs && r in states[j].runs
    requires r in states[i + 1].runs && states[i + 1].runs[r].status != states[i].runs[r].status
    requires states[j].now - states[i].now <= 3600
    ensures !Orphan(states[j].runs[r], states[j].now - 3600)
  {
    InvAlways(states, steps, i);
    assert StepAt(states, steps, i);
    AppliesTable(states[i], steps[i]);
    KeysAfter(states[i], steps[i]);
    StatusAfter(states[i], steps[i], r);
    StampsAfter(states[i], steps[i], r);
    UpdatedGrows(states, steps, i + 1, j, r);
  }

  /** Every lock that is taken is held by a creator of a tenant with that lock: no request, however it
      ends, leaves a lock behind. */
  lemma LocksHaveHolders(states: seq<State>, steps: seq<Step>, i: nat, l: nat)
    requires Execution(states, steps) && i < |states| && l in states[i].locks
    ensures var c := states[i].locks[l];
      Holds(states[i], c) && LockId(states[i].creators[c].tenant) == l
  {
    InvAlways(states, steps, i);
  }

  /** A user's cancel request for the run had been written before step i. */
  ghost predicate WasCancelled(states: seq<State>, steps: seq<Step>, i: nat, r: RunId) {
    exists j :: 0 <= j < i && CancelledAt(states, steps, j, r)
  }

  ghost predicate CancelledAt(states: seq<State>, steps: seq<Step>, j: int, r: RunId) {
    && 0 <= j < |steps| && j < |states|
    && steps[j].CancelWrite? && steps[j].k in states[j].cancellers && states[j].cancellers[steps[j].k] == r
  }

  /** The worker took notice of a cancellation. */
  predicate Noticed(worker: Worker) {
    ((worker.Saving? || worker.Closing?) && worker.cancelled) || (worker.Ending? && worker.verdict == Cancelled)
  }

  lemma NoticedOnlyIfCancelled(s: State, step: Step, w: ActorId)
    requires Enabled(s, step) && w in Apply(s, step).workers && Noticed(Apply(s, step).workers[w])
    ensures w in s.workers && s.workers[w].run == Apply(s, step).workers[w].run
    ensures Noticed(s.workers[w]) || (s.workers[w].run in s.runs && s.runs[s.workers[w].run].status == Cancelled)
  {
  }

  ghost predicate CancelledRowsWere(states: seq<State>, steps: seq<Step>, i: nat)
    requires i < |states|
  {
    && (forall r :: r in states[i].runs && states[i].runs[r].status == Cancelled ==> WasCancelled(states, steps, i, r))
    && (forall w :: w in states[i].workers && Noticed(states[i].workers[w]) ==>
          WasCancelled(states, steps, i, states[i].workers[w].run))
  }

  /** A run is cancelled, and its worker takes notice of a cancellation, only when a user asked for it. */
  lemma {:induction false} CancelledOnlyByUsers(states: seq<State>, steps: seq<Step>, i: nat)
    requires Execution(states, steps) && i < |states|
    ensures CancelledRowsWere(states, steps, i)
  {
    if i > 0 {
      CancelledOnlyByUsers(states, steps, i - 1);
      assert StepAt(states, steps, i - 1);
      forall r | r in states[i].runs && states[i].runs[r].status == Cancelled
        ensures WasCancelled(states, steps, i, r)
      {
        CancelledRow(states, steps, i - 1, r);
      }
      forall w | w in states[i].workers && Noticed(states[i].workers[w])
        ensures WasCancelled(states, steps, i, states[i].workers[w].run)
      {
        NoticedOnlyIfCancelled(states[i - 1], steps[i - 1], w);
        CancelledEarlier(states, steps, i - 1, states[i].workers[w].run);
      }
    }
  }

  lemma CancelledEarlier(states: seq<State>, steps: seq<Step>, i: nat, r: RunId)
    requires WasCancelled(states, steps, i, r)
    ensures WasCancelled(states, steps, i + 1, r)
  {
    var j :| 0 <= j < i && CancelledAt(states, steps, j, r);
    assert 0 <= j < i + 1 && CancelledAt(states, steps, j, r);
  }

  lemma CancelledRow(states: seq<State>, steps: seq<Step>, i: nat, r: RunId)
    requires Execution(states, steps) && i < |steps|
    requires r in states[i + 1].runs && states[i + 1].runs[r].status == Cancelled
    requires CancelledRowsWere(states, steps, i)
    ensures WasCancelled(states, steps, i + 1, r)
  {
    var s, step := states[i], steps[i];
    assert StepAt(states, steps, i);
    AppliesTable(s, step);
    KeysAfter(s, step);
    if !step.Insert? || step.id != r {
      StatusAfter(s, step, r);
      if step.CancelWrite? && s.cancellers[step.k] == r {
        assert CancelledAt(states, steps, i, r);
      } else if s.runs[r].status != Cancelled {
        assert step.TerminalWrite? && s.workers[step.w].run == r && Noticed(s.workers[step.w]);
        CancelledEarlier(states, steps, i, r);
      } else {
        CancelledEarlier(states, steps, i, r);
      }
    }
  }

  /** No beat is on its way for the run. */
  ghost predicate Still(s: State, r: RunId) {
    forall w :: w in s.beats && w in s.workers ==> s.workers[w].run != r
  }

  /** The run has ended, or is gone. */
  predicate Over(s: State, r: RunId) { r in s.issued && (r in s.runs ==> Rank(s.runs[r].status) == 2) }

  lemma StaysStill(s: State, step: Step, r: RunId)
    requires Enabled(s, step) && RequestInv(s) && Still(s, r) && Over(s, r)
    ensures Still(Apply(s, step), r)
  {
    forall w | w in Apply(s, step).beats && w in Apply(s, step).workers ensures Apply(s, step).workers[w].run != r {
      BeatsComeFrom(s, step, w);
    }
  }

  lemma OverStep(s: State, step: Step, r: RunId)
    requires Inv(s) && Enabled(s, step) && Still(s, r) && Over(s, r)
    ensures var s' := Apply(s, step);
      && Over(s', r) && Still(s', r)
      && (r in s'.runs ==> r in s.runs && s'.runs[r].heartbeatAt == s.runs[r].heartbeatAt)
  {
    StaysStill(s, step, r);
    AppliesTable(s, step);
    KeysAfter(s, step);
    if r in TableAfter(s, step) {
      StepKeepsRank(s, step, r);
      BeatAfter(s, step, r);
    }
  }

  /** An ended run stops beating: once no beat is on its way its last beat stays what it is. */
  lemma {:induction false} EndedRunsStopBeating(states: seq<State>, steps: seq<Step>, i: nat, j: nat, r: RunId)
    requires Execution(states, steps) && i <= j < |states| && r in states[i].runs
    requires Over(states[i], r) && Still(states[i], r)
    ensures Over(states[j], r) && Still(states[j], r)
    ensures r in states[j].runs ==> states[j].runs[r].heartbeatAt == states[i].runs[r].heartbeatAt
  {
    if i < j {
      EndedRunsStopBeating(states, steps, i, j - 1, r);
      InvAlways(states, steps, j - 1);
      assert StepAt(states, steps, j - 1);
      OverStep(states[j - 1], steps[j - 1], r);
    }
  }
}
