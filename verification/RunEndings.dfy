/** Which endings are final. A terminal status may still be overwritten, an orphan may still gain
    results: exactly when that can happen, and that it does happen. */
module RunEndings {
  import opened Wrappers
  import opened RunTable
  import opened RunLifecycle
  import opened RunSafety
  import opened RunTheorems
  import opened RunPaths

  /** A row that is gone stays gone. */
  lemma RowsDoNotReturn(s: State, step: Step, r: RunId)
    requires Inv(s) && Enabled(s, step) && r in s.issued
    ensures r in Apply(s, step).issued && (r in Apply(s, step).runs ==> r in s.runs)
    ensures r in Apply(s, step).runs ==> RowStep(s.runs[r], Apply(s, step).runs[r])
  {
    StepKeepsIds(s, step);
    if r in Apply(s, step).runs {
      StepKeepsRank(s, step, r);
    }
  }

  // ---------------------------------------------------------------- orphan clean-up

  /** The orphan query never selects a run that has a Judgment row when it is selected. */
  lemma OrphansHaveNoJudgments(states: seq<State>, steps: seq<Step>, i: nat, r: RunId, cutoff: int)
    requires Execution(states, steps) && i < |states| && r in states[i].runs && Orphan(states[i].runs[r], cutoff)
    ensures states[i].runs[r].judgments == []
  {
    InvAlways(states, steps, i);
  }

  /** A worker is still able to commit results for the run. */
  ghost predicate MaySave(s: State, r: RunId) {
    exists w :: w in s.workers && s.workers[w].run == r && (s.workers[w].Executing? || s.workers[w].Saving?)
  }

  /** Once past its saving transaction or in its `finally` block, a worker stays past it. */
  lemma WorkersNeverGoBack(s: State, step: Step, w: ActorId)
    requires Enabled(s, step) && w in s.workers && !s.workers[w].Executing? && !s.workers[w].Saving?
    ensures w in Apply(s, step).workers
    ensures !Apply(s, step).workers[w].Executing? && !Apply(s, step).workers[w].Saving?
  {
  }

  lemma JudgmentsOnlyBySaving(s: State, step: Step, r: RunId)
    requires Enabled(s, step) && r in s.runs && r in TableAfter(s, step) && !MaySave(s, r)
    requires step.Insert? ==> step.id != r
    ensures TableAfter(s, step)[r].judgments == s.runs[r].judgments
  {
  }

  /** An ended run that no worker can save. */
  ghost predicate Unsavable(s: State, r: RunId) {
    r in s.issued && !MaySave(s, r) && (r in s.runs ==> Rank(s.runs[r].status) == 2)
  }

  lemma NoSaverAppears(s: State, step: Step, r: RunId)
    requires Enabled(s, step) && Unsavable(s, r)
    ensures !MaySave(Apply(s, step), r)
  {
    var s' := Apply(s, step);
    forall w | w in s'.workers && s'.workers[w].run == r ensures !s'.workers[w].Executing? && !s'.workers[w].Saving? {
      WorkersComeFrom(s, step, w);
      WorkersNeverGoBack(s, step, w);
    }
  }

  lemma {:induction false} UnsavableAlong(s: State, steps: seq<Step>, r: RunId)
    requires Inv(s) && Legal(s, steps) && Unsavable(s, r)
    ensures Unsavable(After(s, steps), r)
    ensures r in After(s, steps).runs ==> r in s.runs && After(s, steps).runs[r].judgments == s.runs[r].judgments
    decreases |steps|
  {
    if steps != [] {
      var step := steps[0];
      InvStep(s, step);
      NoSaverAppears(s, step, r);
      RowsDoNotReturn(s, step, r);
      AppliesTable(s, step);
      if r in Apply(s, step).runs {
        JudgmentsOnlyBySaving(s, step, r);
      }
      UnsavableAlong(Apply(s, step), steps[1..], r);
    }
  }

  /** The selection stays right for as long as the clean-up takes if no worker can still save. */
  lemma OrphansStayEmpty(states: seq<State>, steps: seq<Step>, i: nat, j: nat, r: RunId, cutoff: int)
    requires Execution(states, steps) && i <= j < |states|
    requires r in states[i].runs && Orphan(states[i].runs[r], cutoff) && !MaySave(states[i], r)
    ensures Unsavable(states[j], r)
    ensures r in states[j].runs ==> states[j].runs[r].judgments == []
  {
    InvAlways(states, steps, i);
    OrphansHaveNoJudgments(states, steps, i, r, cutoff);
    StretchIsAPath(states, steps, i, j);
    UnsavableAlong(states[i], steps[i..j], r);
  }

  /** Some continuation gives the run a Judgment row. */
  ghost predicate CanGainJudgments(s: State, r: RunId) {
    exists steps :: Legal(s, steps) && r in After(s, steps).runs && After(s, steps).runs[r].judgments != []
  }

  lemma {:induction false} SavingGains(s: State, w: ActorId)
    requires w in s.workers && s.workers[w].Saving? && s.workers[w].run in s.runs
    ensures Legal(s, [Persist(w, [true], None)]) && CanGainJudgments(s, s.workers[w].run)
  {
    First(s, Persist(w, [true], None), []);
    assert [Persist(w, [true], None)] + [] == [Persist(w, [true], None)];
    assert After(s, [Persist(w, [true], None)]) == Apply(s, Persist(w, [true], None));
  }

  lemma GainsLater(s: State, step: Step, r: RunId)
    requires Enabled(s, step) && CanGainJudgments(Apply(s, step), r)
    ensures CanGainJudgments(s, r)
  {
    var steps :| Legal(Apply(s, step), steps) && r in After(Apply(s, step), steps).runs
      && After(Apply(s, step), steps).runs[r].judgments != [];
    First(s, step, steps);
    assert Legal(s, [step] + steps);
  }

  /** A selected orphan, whose traces are about to be deleted, can still gain Judgment rows if and only
      if a worker is in its event loop or about to save. */
  lemma OrphanGainsJudgmentsIff(s: State, r: RunId, cutoff: int)
    requires Inv(s) && r in s.runs && Orphan(s.runs[r], cutoff)
    ensures CanGainJudgments(s, r) <==> MaySave(s, r)
  {
    if MaySave(s, r) {
      var w :| w in s.workers && s.workers[w].run == r && (s.workers[w].Executing? || s.workers[w].Saving?);
      if s.workers[w].Saving? {
        SavingGains(s, w);
      } else {
        SavingGains(Apply(s, LeaveLoop(w)), w);
        GainsLater(s, LeaveLoop(w), r);
      }
    } else {
      assert RowOk(s.runs[r], s.now);
      forall steps | Legal(s, steps) && r in After(s, steps).runs ensures After(s, steps).runs[r].judgments == [] {
        UnsavableAlong(s, steps, r);
      }
    }
  }

  // ---------------------------------------------------------------- who can still write a status

  /** A cancel request that read the run before it became terminal and has not written yet. */
  ghost predicate StaleCancel(s: State, r: RunId) {
    exists k :: k in s.cancellers && s.cancellers[k] == r
  }

  /** A create request that has inserted the run and not yet heard from the broker. */
  ghost predicate PendingEnqueue(s: State, r: RunId) {
    exists c :: c in s.creators && s.creators[c] == Enqueuing(r)
  }

  /** The worker may yet write another status than cancelled. */
  predicate Overwriting(worker: Worker) {
    || worker.Executing?
    || ((worker.Saving? || worker.Closing?) && !worker.cancelled)
    || (worker.Ending? && worker.verdict != Cancelled)
  }

  ghost predicate MayOverwrite(s: State, r: RunId) {
    exists w :: w in s.workers && s.workers[w].run == r && Overwriting(s.workers[w])
  }

  /** Its very next write is another status than cancelled. */
  ghost predicate AboutToOverwrite(s: State, r: RunId) {
    exists w :: w in s.workers && s.workers[w].Ending? && s.workers[w].run == r && s.workers[w].verdict != Cancelled
  }

  /** Nobody is left who can change the run's terminal status. */
  ghost predicate Settled(s: State, r: RunId) {
    && r in s.issued
    && (r in s.runs ==>
          match s.runs[r].status
          case Failed => !StaleCancel(s, r)
          case Completed => !StaleCancel(s, r) && !PendingEnqueue(s, r)
          case Cancelled => !MayOverwrite(s, r) && !PendingEnqueue(s, r)
          case _ => false)
  }

  /** The terminal write's guard: a run already failed or completed keeps its status. */
  lemma TerminalWriteIsGuarded(s: State, w: ActorId)
    requires Inv(s) && Enabled(s, TerminalWrite(w)) && s.workers[w].run in s.runs
    ensures var r, s' := s.workers[w].run, Apply(s, TerminalWrite(w));
      s'.runs[r].status == if s.runs[r].status in {Failed, Completed} then s.runs[r].status else s.workers[w].verdict
  {
    assert WorkerOk(s, s.workers[w]);
  }

  /** Which steps write a terminal run's status. */
  lemma StatusOnlyByWriters(s: State, step: Step, r: RunId)
    requires Enabled(s, step) && (step.Insert? ==> step.id != r)
    requires r in s.runs && r in TableAfter(s, step) && Rank(s.runs[r].status) == 2
    ensures TableAfter(s, step)[r].status ==
      if step.CancelWrite? && s.cancellers[step.k] == r then Cancelled
      else if step.EnqueueFailed? && s.creators[step.c].run == r then Failed
      else if step.TerminalWrite? && s.workers[step.w].run == r && s.runs[r].status == Cancelled
          then s.workers[step.w].verdict
      else s.runs[r].status
  {
  }

  lemma NoStaleCancelAppears(s: State, step: Step, r: RunId)
    requires Enabled(s, step) && !StaleCancel(s, r) && (r in s.runs ==> Rank(s.runs[r].status) == 2)
    ensures !StaleCancel(Apply(s, step), r)
  {
  }

  lemma NoEnqueueAppears(s: State, step: Step, r: RunId)
    requires Enabled(s, step) && !PendingEnqueue(s, r) && r in s.issued
    ensures !PendingEnqueue(Apply(s, step), r)
  {
  }

  lemma OverwritersWereThere(s: State, step: Step, w: ActorId)
    requires Enabled(s, step) && w in s.workers && w in Apply(s, step).workers && Overwriting(Apply(s, step).workers[w])
    ensures Overwriting(s.workers[w])
  {
  }

  lemma NoOverwriterAppears(s: State, step: Step, r: RunId)
    requires Enabled(s, step) && !MayOverwrite(s, r) && (r in s.runs ==> Rank(s.runs[r].status) == 2)
    ensures !MayOverwrite(Apply(s, step), r)
  {
    var s' := Apply(s, step);
    forall w | w in s'.workers && s'.workers[w].run == r ensures !Overwriting(s'.workers[w]) {
      WorkersComeFrom(s, step, w);
      if Overwriting(s'.workers[w]) {
        OverwritersWereThere(s, step, w);
      }
    }
  }

  /** Who is left does not grow. */
  lemma SettledStays(s: State, step: Step, r: RunId)
    requires Enabled(s, step) && Settled(s, r) && r in s.runs
    ensures !StaleCancel(s, r) ==> !StaleCancel(Apply(s, step), r)
    ensures !PendingEnqueue(s, r) ==> !PendingEnqueue(Apply(s, step), r)
    ensures !MayOverwrite(s, r) ==> !MayOverwrite(Apply(s, step), r)
  {
    if !StaleCancel(s, r) {
      NoStaleCancelAppears(s, step, r);
    }
    if !PendingEnqueue(s, r) {
      NoEnqueueAppears(s, step, r);
    }
    if !MayOverwrite(s, r) {
      NoOverwriterAppears(s, step, r);
    }
  }

  lemma {:induction false} SettledAlong(s: State, steps: seq<Step>, r: RunId)
    requires Inv(s) && Legal(s, steps) && Settled(s, r)
    ensures Settled(After(s, steps), r)
    ensures r in After(s, steps).runs ==> r in s.runs && After(s, steps).runs[r].status == s.runs[r].status
    decreases |steps|
  {
    if steps != [] {
      var step := steps[0];
      InvStep(s, step);
      RowsDoNotReturn(s, step, r);
      AppliesTable(s, step);
      if r in Apply(s, step).runs {
        StatusOnlyByWriters(s, step, r);
        SettledStays(s, step, r);
      }
      SettledAlong(Apply(s, step), steps[1..], r);
    }
  }

  // ---------------------------------------------------------------- one step

  /** Every step keeps the run's status, or deletes the row. */
  ghost predicate KeptByEveryStep(s: State, r: RunId)
    requires r in s.runs
  {
    forall step: Step :: Enabled(s, step) && r in Apply(s, step).runs ==>
        Apply(s, step).runs[r].status == s.runs[r].status
  }

  /** None of the writers above is at work. */
  ghost predicate Unwritten(s: State, r: RunId)
    requires r in s.runs
  {
    && r in s.issued && Rank(s.runs[r].status) == 2
    && (s.runs[r].status != Cancelled ==> !StaleCancel(s, r))
    && (s.runs[r].status != Failed ==> !PendingEnqueue(s, r))
    && (s.runs[r].status == Cancelled ==> !AboutToOverwrite(s, r))
  }

  lemma UnwrittenStep(s: State, step: Step, r: RunId)
    requires r in s.runs && Unwritten(s, r) && Enabled(s, step) && r in TableAfter(s, step)
    ensures TableAfter(s, step)[r].status == s.runs[r].status
  {
    StatusOnlyByWriters(s, step, r);
  }

  lemma KeptIfUnwritten(s: State, r: RunId)
    requires r in s.runs && Unwritten(s, r)
    ensures KeptByEveryStep(s, r)
  {
    forall step: Step | Enabled(s, step) && r in Apply(s, step).runs
      ensures Apply(s, step).runs[r].status == s.runs[r].status
    {
      AppliesTable(s, step);
      UnwrittenStep(s, step, r);
    }
  }

  lemma CancelWrites(s: State, r: RunId)
    requires r in s.runs && s.runs[r].status != Cancelled && StaleCancel(s, r)
    ensures !KeptByEveryStep(s, r)
  {
    var k :| k in s.cancellers && s.cancellers[k] == r;
    assert Enabled(s, CancelWrite(k)) && Apply(s, CancelWrite(k)).runs[r].status == Cancelled;
  }

  lemma EnqueueFailureWrites(s: State, r: RunId)
    requires r in s.runs && s.runs[r].status != Failed && PendingEnqueue(s, r)
    ensures !KeptByEveryStep(s, r)
  {
    var c :| c in s.creators && s.creators[c] == Enqueuing(r);
    assert Enabled(s, EnqueueFailed(c)) && Apply(s, EnqueueFailed(c)).runs[r].status == Failed;
  }

  lemma TerminalWriteWrites(s: State, r: RunId)
    requires Inv(s) && r in s.runs && s.runs[r].status == Cancelled && AboutToOverwrite(s, r)
    ensures !KeptByEveryStep(s, r)
  {
    var w :| w in s.workers && s.workers[w].Ending? && s.workers[w].run == r && s.workers[w].verdict != Cancelled;
    assert Enabled(s, TerminalWrite(w));
    TerminalWriteIsGuarded(s, w);
  }

  /** In a reachable state, some step can move a failed run to another status if and only if a
      cancel request read it before it failed. */
  lemma FailedIsStableIffNoStaleCancel(s: State, r: RunId)
    requires Inv(s) && r in s.runs && s.runs[r].status == Failed
    ensures KeptByEveryStep(s, r) <==> !StaleCancel(s, r)
  {
    if StaleCancel(s, r) {
      CancelWrites(s, r);
    } else {
      KeptIfUnwritten(s, r);
    }
  }

  /** A completed run: if and only if such a cancel request or an enqueue failure is to come. */
  lemma CompletedIsStableIff(s: State, r: RunId)
    requires Inv(s) && r in s.runs && s.runs[r].status == Completed
    ensures KeptByEveryStep(s, r) <==> !StaleCancel(s, r) && !PendingEnqueue(s, r)
  {
    if StaleCancel(s, r) {
      CancelWrites(s, r);
    } else if PendingEnqueue(s, r) {
      EnqueueFailureWrites(s, r);
    } else {
      KeptIfUnwritten(s, r);
    }
  }

  /** A cancelled run: if and only if its worker is about to write another status, or an enqueue
      failure is to come. */
  lemma CancelledIsStableIff(s: State, r: RunId)
    requires Inv(s) && r in s.runs && s.runs[r].status == Cancelled
    ensures KeptByEveryStep(s, r) <==> !AboutToOverwrite(s, r) && !PendingEnqueue(s, r)
  {
    if AboutToOverwrite(s, r) {
      TerminalWriteWrites(s, r);
    } else if PendingEnqueue(s, r) {
      EnqueueFailureWrites(s, r);
    } else {
      KeptIfUnwritten(s, r);
    }
  }

  // ---------------------------------------------------------------- all continuations

  /** No continuation whatever changes the run's status. */
  ghost predicate IsFinal(s: State, r: RunId)
    requires r in s.runs
  {
    forall steps :: Legal(s, steps) && r in After(s, steps).runs ==> After(s, steps).runs[r].status == s.runs[r].status
  }

  lemma {:induction false} OneStepIsAPath(s: State, step: Step)
    requires Enabled(s, step)
    ensures Legal(s, [step]) && After(s, [step]) == Apply(s, step)
  {
    First(s, step, []);
    assert [step] + [] == [step];
  }

  lemma NotKeptIsNotFinal(s: State, r: RunId)
    requires r in s.runs && !KeptByEveryStep(s, r)
    ensures !IsFinal(s, r)
  {
    var step: Step :| Enabled(s, step) && r in Apply(s, step).runs && Apply(s, step).runs[r].status != s.runs[r].status;
    OneStepIsAPath(s, step);
  }

  lemma FreshActor(used: set<ActorId>) returns (k: ActorId)
    ensures k !in used && forall u :: u in used ==> u < k
  {
    if used == {} {
      k := 0;
    } else {
      var u :| u in used;
      var above := FreshActor(used - {u});
      assert forall x :: x in used ==> x == u || x in used - {u};
      k := if u < above then above else u + 1;
    }
  }

  /** A run that has not ended can always be cancelled. */
  lemma UnendedIsNotFinal(s: State, r: RunId)
    requires r in s.runs && Rank(s.runs[r].status) < 2
    ensures !IsFinal(s, r)
  {
    var k := FreshActor(s.cancellers.Keys);
    var s1 := Apply(s, CancelRead(k, r));
    assert s1.runs[r].status != Cancelled && s1.cancellers[k] == r;
    Two(s, CancelRead(k, r), CancelWrite(k));
    assert After(s, [CancelRead(k, r), CancelWrite(k)]).runs[r].status == Cancelled;
  }

  lemma RaisingFails(s: State, w: ActorId)
    requires w in s.workers && Overwriting(s.workers[w]) && !s.workers[w].Ending?
    requires s.workers[w].run in s.runs && s.runs[s.workers[w].run].status == Cancelled
    ensures !IsFinal(s, s.workers[w].run)
  {
    Two(s, Raise(w), TerminalWrite(w));
    assert After(s, [Raise(w), TerminalWrite(w)]).runs[s.workers[w].run].status == Failed;
  }

  /** A worker that has not noticed the cancellation can still fail: any exception will do. */
  lemma OverwriterIsNotFinal(s: State, r: RunId)
    requires Inv(s) && r in s.runs && s.runs[r].status == Cancelled && MayOverwrite(s, r)
    ensures !IsFinal(s, r)
  {
    var w :| w in s.workers && s.workers[w].run == r && Overwriting(s.workers[w]);
    if s.workers[w].Ending? {
      assert AboutToOverwrite(s, r);
      TerminalWriteWrites(s, r);
      NotKeptIsNotFinal(s, r);
    } else {
      RaisingFails(s, w);
    }
  }

  /** In a reachable state, a run's status is final if and only if the run has ended and nobody is left
      who can write it: for a failed run no cancel request that read it in time; for a completed one
      also no enqueue failure to come; for a cancelled one no enqueue failure and no worker that has
      yet to end without having noticed the cancellation. */
  lemma StatusIsFinalIff(s: State, r: RunId)
    requires Inv(s) && r in s.runs
    ensures IsFinal(s, r) <==> Settled(s, r)
  {
    if Settled(s, r) {
      forall steps | Legal(s, steps) && r in After(s, steps).runs
        ensures After(s, steps).runs[r].status == s.runs[r].status
      {
        SettledAlong(s, steps, r);
      }
    } else if Rank(s.runs[r].status) < 2 {
      UnendedIsNotFinal(s, r);
    } else if s.runs[r].status != Cancelled && StaleCancel(s, r) {
      CancelWrites(s, r);
      NotKeptIsNotFinal(s, r);
    } else if s.runs[r].status != Failed && PendingEnqueue(s, r) {
      EnqueueFailureWrites(s, r);
      NotKeptIsNotFinal(s, r);
    } else {
      OverwriterIsNotFinal(s, r);
    }
  }

  /** The same over executions: a settled run keeps its status in every later state. */
  lemma SettledForever(states: seq<State>, steps: seq<Step>, i: nat, j: nat, r: RunId)
    requires Execution(states, steps) && i <= j < |states| && r in states[i].runs && Settled(states[i], r)
    ensures Settled(states[j], r)
    ensures r in states[j].runs ==> states[j].runs[r].status == states[i].runs[r].status
  {
    InvAlways(states, steps, i);
    StretchIsAPath(states, steps, i, j);
    SettledAlong(states[i], steps[i..j], r);
  }

  /** Stale writer rejection, as far as it goes: a run that fails (swept, say) while no cancel
      request is in flight for it is failed in every later state. */
  lemma FailedForever(states: seq<State>, steps: seq<Step>, i: nat, j: nat, r: RunId)
    requires Execution(states, steps) && i <= j < |states|
    requires r in states[i].runs && states[i].runs[r].status == Failed && !StaleCancel(states[i], r)
    ensures r in states[j].runs ==> states[j].runs[r].status == Failed && !StaleCancel(states[j], r)
  {
    InvAlways(states, steps, i);
    SettledForever(states, steps, i, j, r);
  }

  // ---------------------------------------------------------------- it does happen

  /** A reachable state with a running run r, which worker w executes or ends as told, and which last
      beat at `beat`; nobody else is about. */
  ghost predicate Stage(s: State, r: RunId, w: ActorId, worker: Worker, beat: Option<int>, updated: int) {
    && Reachable(s)
    && w in s.workers && s.workers[w] == worker && worker.run == r
    && r in s.runs && s.runs[r].status == Running && s.runs[r].heartbeatAt == beat && s.runs[r].updatedAt == updated
    && s.runs[r].total == 0
    && s.beats == map[]
  }

  lemma ClaimedRun(s: State, t: TenantId, a: AgentId) returns (s': State)
    requires Init(s)
    ensures Stage(s', 0, 0, Executing(0), None, s.now) && s'.now == s.now && s'.cancellers == map[]
  {
    StartIsReachable(s);
    assert ActiveRuns(s.runs, t) == {};
    UndisturbedCreate(s, 0, t, a, 0);
    var steps := ([BeginCreate(0, t, a)] + [AcquireLock(0), Count(0)]) + [Insert(0, 0), Enqueued(0)];
    ReachableAlong(s, steps);
    var pending := After(s, steps);
    ReachableStep(pending, Claim(0, 0));
    s' := Apply(pending, Claim(0, 0));
  }

  lemma BeatenRun(s: State, r: RunId, w: ActorId) returns (s': State)
    requires Stage(s, r, w, Executing(r), None, s.now) && s.cancellers == map[]
    ensures Stage(s', r, w, Executing(r), Some(s.now), s.now) && s'.now == s.now && s'.cancellers == map[]
  {
    var read := Apply(s, BeatRead(w));
    ReachableStep(s, BeatRead(w));
    ReachableStep(read, BeatWrite(w, s.now));
    s' := Apply(read, BeatWrite(w, s.now));
  }

  /** The clock advances and a cancel request reads the running run. */
  lemma CancelInFlight(s: State, r: RunId, w: ActorId, worker: Worker, beat: Option<int>, delta: nat)
    returns (s': State)
    requires Stage(s, r, w, worker, beat, s.now) && s.cancellers == map[]
    ensures Stage(s', r, w, worker, beat, s.now) && s'.now == s.now + delta && s'.cancellers == map[0 := r]
  {
    var later := Apply(s, Tick(delta));
    ReachableStep(s, Tick(delta));
    ReachableStep(later, CancelRead(0, r));
    s' := Apply(later, CancelRead(0, r));
  }

  lemma AboutToComplete(s: State, r: RunId, w: ActorId, beat: Option<int>, updated: int) returns (s': State)
    requires Stage(s, r, w, Executing(r), beat, updated) && s.cancellers == map[0 := r]
    ensures Reachable(s') && s'.now == s.now && s'.cancellers == map[0 := r]
    ensures w in s'.workers && s'.workers[w] == Ending(r, Completed)
    ensures r in s'.runs && s'.runs[r].status == Running && s'.runs[r].heartbeatAt == beat
  {
    var left := Apply(s, LeaveLoop(w));
    ReachableStep(s, LeaveLoop(w));
    var saved := Apply(left, Persist(w, [], None));
    ReachableStep(left, Persist(w, [], None));
    ReachableStep(saved, Conclude(w));
    s' := Apply(saved, Conclude(w));
  }

  /** A cancel request in flight moves the run to cancelled, and its stale worker then completes it. */
  ghost predicate CancelledThenCompleted(s: State, r: RunId) {
    && Enabled(s, CancelWrite(0))
    && var cancelled := Apply(s, CancelWrite(0));
    && r in cancelled.runs && cancelled.runs[r].status == Cancelled
    && Enabled(cancelled, TerminalWrite(0))
    && r in TableAfter(cancelled, TerminalWrite(0))
    && TableAfter(cancelled, TerminalWrite(0))[r].status == Completed
  }

  /** A running run that a sweep fails, and that is completed after all. */
  ghost predicate SweptThenCompleted(s: State, r: RunId) {
    && r in s.runs && s.runs[r].status == Running
    && var sweep := Sweep(s.now - ZOMBIE_TIMEOUT_SECONDS);
    && Enabled(s, sweep)
    && r in Apply(s, sweep).runs && Apply(s, sweep).runs[r].status == Failed
    && CancelledThenCompleted(Apply(s, sweep), r)
  }

  lemma CancelAndStaleWorker(s: State, r: RunId)
    requires r in s.runs && 0 in s.cancellers && s.cancellers[0] == r
    requires 0 in s.workers && s.workers[0] == Ending(r, Completed)
    ensures CancelledThenCompleted(s, r)
  {
  }

  lemma SilentRunInFlight(s: State, r: RunId)
    requires r in s.runs && s.runs[r].status == Running && Before(s.runs[r].heartbeatAt, s.now - ZOMBIE_TIMEOUT_SECONDS)
    requires 0 in s.cancellers && s.cancellers[0] == r
    requires 0 in s.workers && s.workers[0] == Ending(r, Completed)
    ensures SweptThenCompleted(s, r)
  {
    CancelAndStaleWorker(Apply(s, Sweep(s.now - ZOMBIE_TIMEOUT_SECONDS)), r);
  }

  /** Where stale writer rejection ends: from the empty system such a state is reached. */
  lemma SweptRunIsCompleted(start: State, t: TenantId, a: AgentId)
    requires Init(start)
    ensures exists s, r :: Reachable(s) && SweptThenCompleted(s, r)
  {
    var claimed := ClaimedRun(start, t, a);
    var beaten := BeatenRun(claimed, 0, 0);
    var inFlight := CancelInFlight(beaten, 0, 0, Executing(0), Some(beaten.now), ZOMBIE_TIMEOUT_SECONDS + 1);
    var s := AboutToComplete(inFlight, 0, 0, Some(beaten.now), beaten.now);
    SilentRunInFlight(s, 0);
  }

  /** And one in which the clean-up selects a cancelled run whose worker can still save its results. */
  lemma OrphanCanBeSaved(start: State, t: TenantId, a: AgentId)
    requires Init(start)
    ensures exists s, r :: Reachable(s) && r in s.runs && Orphan(s.runs[r], s.now - 3600) && CanGainJudgments(s, r)
  {
    var claimed := ClaimedRun(start, t, a);
    var inFlight := CancelInFlight(claimed, 0, 0, Executing(0), None, 0);
    var cancelled := Apply(inFlight, CancelWrite(0));
    ReachableStep(inFlight, CancelWrite(0));
    ReachableStep(cancelled, Tick(3601));
    var s := Apply(cancelled, Tick(3601));
    assert s.workers[0] == Executing(0);
    ReachableInv(s);
    OrphanGainsJudgmentsIff(s, 0, s.now - 3600);
  }
}
