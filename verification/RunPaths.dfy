/** Named sequences of steps, what undisturbed requests and workers achieve, and reachable states. */
module RunPaths {
  import opened Wrappers
  import opened RunTable
  import opened RunLifecycle
  import opened RunTheorems

  ghost predicate Legal(s: State, steps: seq<Step>)
    decreases |steps|
  {
    steps == [] || (Enabled(s, steps[0]) && Legal(Apply(s, steps[0]), steps[1..]))
  }

  ghost function After(s: State, steps: seq<Step>): State
    requires Legal(s, steps)
    decreases |steps|
  {
    if steps == [] then s else After(Apply(s, steps[0]), steps[1..])
  }

  lemma {:induction false} First(s: State, step: Step, rest: seq<Step>)
    requires Enabled(s, step) && Legal(Apply(s, step), rest)
    ensures Legal(s, [step] + rest) && After(s, [step] + rest) == After(Apply(s, step), rest)
  {
    assert ([step] + rest)[1..] == rest;
  }

  lemma {:induction false} Concatenate(s: State, a: seq<Step>, b: seq<Step>)
    requires Legal(s, a) && Legal(After(s, a), b)
    ensures Legal(s, a + b) && After(s, a + b) == After(After(s, a), b)
    decreases |a|
  {
    if a == [] {
      assert a + b == b;
    } else {
      Concatenate(Apply(s, a[0]), a[1..], b);
      assert (a + b)[1..] == a[1..] + b;
    }
  }

  lemma {:induction false} Two(s: State, first: Step, second: Step)
    requires Enabled(s, first) && Enabled(Apply(s, first), second)
    ensures Legal(s, [first, second]) && After(s, [first, second]) == Apply(Apply(s, first), second)
  {
    First(Apply(s, first), second, []);
    First(s, first, [second]);
    assert [first] + [second] == [first, second];
  }

  /** Up to the count: the lock is taken and the creator knows the number of active runs. */
  lemma {:induction false} CountUnderLock(s: State, c: ActorId, t: TenantId, a: AgentId)
    requires c !in s.creators && LockId(t) !in s.locks
    ensures var steps := [BeginCreate(c, t, a)] + [AcquireLock(c), Count(c)];
      && Legal(s, steps)
      && After(s, steps) == s.(locks := s.locks[LockId(t) := c],
                               creators := s.creators[c := Counted(t, a, |ActiveRuns(s.runs, t)|)])
  {
    var s1 := Apply(s, BeginCreate(c, t, a));
    Two(s1, AcquireLock(c), Count(c));
    First(s, BeginCreate(c, t, a), [AcquireLock(c), Count(c)]);
  }

  /** From the count on: the insertion, the release of the lock and the message. */
  lemma {:induction false} InsertAndEnqueue(s: State, c: ActorId, id: RunId)
    requires c in s.creators && s.creators[c].Counted? && s.creators[c].observed < MAX_ACTIVE_RUNS && id !in s.issued
    ensures var steps := [Insert(c, id), Enqueued(c)];
      && Legal(s, steps)
      && After(s, steps) == s.(runs := s.runs[id := NewRun(s.creators[c].tenant, s.creators[c].agent, s.now)],
                               issued := s.issued + {id},
                               locks := Without(s.locks, LockId(s.creators[c].tenant)),
                               creators := Without(s.creators, c))
  {
    Two(s, Insert(c, id), Enqueued(c));
    assert Without(s.creators[c := Enqueuing(id)], c) == Without(s.creators, c);
  }

  /** With a free lock and room for the tenant, an undisturbed request is admitted: one pending run
      appears, the lock is free again and nothing else has changed. */
  lemma {:induction false} UndisturbedCreate(s: State, c: ActorId, t: TenantId, a: AgentId, id: RunId)
    requires c !in s.creators && id !in s.issued
    requires LockId(t) !in s.locks && |ActiveRuns(s.runs, t)| < MAX_ACTIVE_RUNS
    ensures var steps := ([BeginCreate(c, t, a)] + [AcquireLock(c), Count(c)]) + [Insert(c, id), Enqueued(c)];
      && Legal(s, steps)
      && After(s, steps) == s.(runs := s.runs[id := NewRun(t, a, s.now)], issued := s.issued + {id})
  {
    var start := [BeginCreate(c, t, a)] + [AcquireLock(c), Count(c)];
    CountUnderLock(s, c, t, a);
    var mid := After(s, start);
    InsertAndEnqueue(mid, c, id);
    Concatenate(s, start, [Insert(c, id), Enqueued(c)]);
    assert Without(mid.locks, LockId(t)) == s.locks && Without(mid.creators, c) == s.creators;
  }

  /** The run that appears is pending, has no results, and takes one of its tenant's slots. */
  lemma NewRunTakesASlot(runs: Table, id: RunId, t: TenantId, a: AgentId, now: int)
    requires id !in runs
    ensures var row, runs' := NewRun(t, a, now), runs[id := NewRun(t, a, now)];
      && row.status == Pending && row.tenant == t && row.agent == a && row.judgments == [] && !row.isBaseline
      && row.createdAt == row.updatedAt == now
      && |ActiveRuns(runs', t)| == |ActiveRuns(runs, t)| + 1
      && forall other: TenantId :: other != t ==> ActiveRuns(runs', other) == ActiveRuns(runs, other)
  {
    assert ActiveRuns(runs[id := NewRun(t, a, now)], t) == ActiveRuns(runs, t) + {id};
  }

  /** With the tenant at its limit, the same request is refused and leaves no trace. */
  lemma {:induction false} UndisturbedRefusal(s: State, c: ActorId, t: TenantId, a: AgentId)
    requires c !in s.creators && LockId(t) !in s.locks && |ActiveRuns(s.runs, t)| >= MAX_ACTIVE_RUNS
    ensures var steps := ([BeginCreate(c, t, a)] + [AcquireLock(c), Count(c)]) + [Refuse(c)];
      Legal(s, steps) && After(s, steps) == s
  {
    var start := [BeginCreate(c, t, a)] + [AcquireLock(c), Count(c)];
    CountUnderLock(s, c, t, a);
    var mid := After(s, start);
    First(mid, Refuse(c), []);
    assert [Refuse(c)] + [] == [Refuse(c)];
    assert Without(mid.locks, LockId(t)) == s.locks && Without(mid.creators, c) == s.creators;
    Concatenate(s, start, [Refuse(c)]);
  }

  lemma {:induction false} AbortAfterCount(s: State, c: ActorId)
    requires c in s.creators && s.creators[c].Counted?
    ensures Legal(s, [Abort(c)])
    ensures After(s, [Abort(c)])
         == s.(locks := Without(s.locks, LockId(s.creators[c].tenant)), creators := Without(s.creators, c))
  {
    First(s, Abort(c), []);
    assert [Abort(c)] + [] == [Abort(c)];
  }

  /** A request that is aborted under the lock leaves no trace either. */
  lemma {:induction false} UndisturbedAbort(s: State, c: ActorId, t: TenantId, a: AgentId)
    requires c !in s.creators && LockId(t) !in s.locks
    ensures var steps := ([BeginCreate(c, t, a)] + [AcquireLock(c), Count(c)]) + [Abort(c)];
      Legal(s, steps) && After(s, steps) == s
  {
    var start := [BeginCreate(c, t, a)] + [AcquireLock(c), Count(c)];
    CountUnderLock(s, c, t, a);
    var mid := After(s, start);
    AbortAfterCount(mid, c);
    Concatenate(s, start, [Abort(c)]);
    assert Without(mid.locks, LockId(t)) == s.locks && Without(mid.creators, c) == s.creators;
  }

  /** Nor does one that is aborted while it waits, whoever has the lock. */
  lemma {:induction false} WaitingAbort(s: State, c: ActorId, t: TenantId, a: AgentId)
    requires c !in s.creators
    ensures Legal(s, [BeginCreate(c, t, a), Abort(c)]) && After(s, [BeginCreate(c, t, a), Abort(c)]) == s
  {
    Two(s, BeginCreate(c, t, a), Abort(c));
    assert Without(s.creators[c := Waiting(t, a)], c) == s.creators;
  }

  /** Whatever the state of the run, a delivery of its message is taken by a free worker: it starts the
      run if that is pending, and does nothing otherwise. */
  lemma UndisturbedDelivery(s: State, w: ActorId, r: RunId)
    requires w !in s.workers
    ensures Enabled(s, Claim(w, r))
    ensures Apply(s, Claim(w, r)) ==
      if r in s.runs && s.runs[r].status == Pending
      then s.(runs := s.runs[r := s.runs[r].(status := Running, updatedAt := s.now)],
              workers := s.workers[w := Executing(r)])
      else s
  {
  }

  /** An enqueue failure and a cancellation end the run and give its tenant the slot back, whatever
      happened to it since it was read. */
  lemma SlotIsFreed(s: State, step: Step)
    requires Enabled(s, step) && (step.EnqueueFailed? || step.CancelWrite?)
    ensures var r := if step.EnqueueFailed? then s.creators[step.c].run else s.cancellers[step.k];
      var s' := Apply(s, step);
      r in s.runs ==>
        && r in s'.runs && s'.runs[r].status == (if step.EnqueueFailed? then Failed else Cancelled)
        && ActiveRuns(s'.runs, s.runs[r].tenant) == ActiveRuns(s.runs, s.runs[r].tenant) - {r}
        && forall q :: q in s.runs && q != r ==> q in s'.runs && s'.runs[q] == s.runs[q]
  {
  }

  /** A cancel request gets past its check if and only if the run is there and has not ended; undisturbed
      it then cancels this run and changes nothing else. */
  lemma {:induction false} UndisturbedCancel(s: State, k: ActorId, r: RunId)
    requires k !in s.cancellers
    ensures Enabled(s, CancelRead(k, r)) <==> r in s.runs && s.runs[r].status in {Pending, Running}
    ensures Enabled(s, CancelRead(k, r)) ==>
      var steps := [CancelRead(k, r), CancelWrite(k)];
      && Legal(s, steps)
      && After(s, steps) == s.(runs := s.runs[r := s.runs[r].(status := Cancelled, updatedAt := s.now)])
  {
    if Enabled(s, CancelRead(k, r)) {
      Two(s, CancelRead(k, r), CancelWrite(k));
      assert Without(s.cancellers[k := r], k) == s.cancellers;
    }
  }

  /** A row after the run `pinned` was made its agent's baseline. */
  function Repinned(row: Run, pinned: Run, same: bool, now: int): Run {
    if same then row.(isBaseline := true, updatedAt := now)
    else if row.isBaseline && (row.tenant, row.agent) == (pinned.tenant, pinned.agent)
    then row.(isBaseline := false, updatedAt := now)
    else row
  }

  lemma {:induction false} PinPath(s: State, p: ActorId, r: RunId)
    requires p !in s.pins && Enabled(s, PinRead(p, r))
    ensures Legal(s, [PinRead(p, r), PinCommit(p)])
    ensures After(s, [PinRead(p, r), PinCommit(p)]) == s.(runs := Pinned(s.runs, r, s.now))
  {
    Two(s, PinRead(p, r), PinCommit(p));
    assert Without(s.pins[p := r], p) == s.pins;
  }

  lemma RowsRepinned(runs: Table, r: RunId, now: int)
    requires r in runs
    ensures Pinned(runs, r, now).Keys == runs.Keys
    ensures forall q :: q in runs ==> Pinned(runs, r, now)[q] == Repinned(runs[q], runs[r], q == r, now)
  {
  }

  /** A pin request gets past its checks if and only if the run is completed with an average of at least
      70; undisturbed it then moves its agent's pin to this run and changes nothing else. */
  lemma {:induction false} UndisturbedPin(s: State, p: ActorId, r: RunId)
    requires p !in s.pins
    ensures Enabled(s, PinRead(p, r)) <==>
              r in s.runs && s.runs[r].status == Completed && s.runs[r].avgScore.Some?
              && s.runs[r].avgScore.value >= 70.0
    ensures Enabled(s, PinRead(p, r)) ==>
      var steps := [PinRead(p, r), PinCommit(p)];
      && Legal(s, steps)
      && After(s, steps) == s.(runs := After(s, steps).runs)
      && After(s, steps).runs.Keys == s.runs.Keys
      && forall q :: q in s.runs ==> After(s, steps).runs[q] == Repinned(s.runs[q], s.runs[r], q == r, s.now)
  {
    if Enabled(s, PinRead(p, r)) {
      PinPath(s, p, r);
      RowsRepinned(s.runs, r, s.now);
    }
  }

  lemma {:induction false} Three(s: State, first: Step, second: Step, third: Step)
    requires Enabled(s, first) && Enabled(Apply(s, first), second)
    requires Enabled(Apply(Apply(s, first), second), third)
    ensures Legal(s, [first] + [second, third])
    ensures After(s, [first] + [second, third]) == Apply(Apply(Apply(s, first), second), third)
  {
    Two(Apply(s, first), second, third);
    First(s, first, [second, third]);
  }

  /** A worker's heartbeat is started if and only if its run is running. It stamps the run with some
      time between its read and its write, and undisturbed changes nothing else. */
  lemma {:induction false} UndisturbedBeat(s: State, w: ActorId, delay: nat, at: int)
    requires w in s.workers && !s.workers[w].Finished? && w !in s.beats && s.now <= at <= s.now + delay
    ensures var r, now := s.workers[w].run, s.now + delay;
      && (Enabled(s, BeatRead(w)) <==> r in s.runs && s.runs[r].status == Running)
      && (Enabled(s, BeatRead(w)) ==>
            var steps := [BeatRead(w)] + [Tick(delay), BeatWrite(w, at)];
            && Legal(s, steps)
            && After(s, steps)
               == s.(now := now, runs := s.runs[r := s.runs[r].(heartbeatAt := Some(at), updatedAt := now)]))
  {
    if Enabled(s, BeatRead(w)) {
      Three(s, BeatRead(w), Tick(delay), BeatWrite(w, at));
      assert Without(s.beats[w := s.now], w) == s.beats;
    }
  }

  /** One that is lost changes nothing. */
  lemma {:induction false} LostBeat(s: State, w: ActorId)
    requires Enabled(s, BeatRead(w))
    ensures Legal(s, [BeatRead(w), BeatLost(w)]) && After(s, [BeatRead(w), BeatLost(w)]) == s
  {
    Two(s, BeatRead(w), BeatLost(w));
    assert Without(s.beats[w := s.now], w) == s.beats;
  }

  /** An exception anywhere before its end takes a worker to its terminal write: cancelled if it had
      noticed a cancellation, else failed. */
  lemma {:induction false} AnExceptionEndsTheRun(s: State, w: ActorId)
    requires w in s.workers && !s.workers[w].Ending? && !s.workers[w].Finished?
    ensures var r, steps := s.workers[w].run, [Raise(w), TerminalWrite(w)];
      var noticed := !s.workers[w].Executing? && s.workers[w].cancelled;
      && Legal(s, steps)
      && After(s, steps).workers == s.workers[w := Finished(r)]
      && After(s, steps).runs ==
           if r in s.runs && s.runs[r].status in {Running, Cancelled}
           then s.runs[r := s.runs[r].(status := if noticed then Cancelled else Failed, updatedAt := s.now)]
           else s.runs
  {
    Two(s, Raise(w), TerminalWrite(w));
  }

  /** Two tenants share an advisory lock if and only if their ids are equal modulo 2**61 - 1. */
  lemma LocksAreShared(t: TenantId, u: TenantId)
    ensures LockId(t) == LockId(u) <==> t % 2305843009213693951 == u % 2305843009213693951
    ensures LockId(t) < 2305843009213693951
  {
  }

  /** The row a run ends with when its worker saves these results and writes this status. */
  function Outcome(run: Run, status: Status, judgments: seq<bool>, avg: Option<real>, now: int): Run {
    CountPassedAppend(judgments, []);
    run.(status := status, judgments := judgments, total := |judgments|, passed := CountPassed(judgments),
         failed := |judgments| - CountPassed(judgments), avgScore := avg,
         embeddingVersion := Some(EMBEDDING_MODEL), updatedAt := now)
  }

  /** Leaving the event loop, with the cancellation noticed or not, and saving the results. */
  function SavingSteps(w: ActorId, noticed: bool, judgments: seq<bool>, avg: Option<real>): seq<Step> {
    [if noticed then NoticeCancel(w) else LeaveLoop(w), Persist(w, judgments, avg)]
  }

  /** The terminal event's constructor, which rejects "cancelled", and the terminal write. */
  function ClosingSteps(w: ActorId, noticed: bool): seq<Step> {
    [if noticed then Raise(w) else Conclude(w), TerminalWrite(w)]
  }

  predicate InLoop(s: State, w: ActorId, noticed: bool) {
    && w in s.workers && s.workers[w].Executing? && s.workers[w].run in s.runs
    && s.runs[s.workers[w].run].status in (if noticed then {Cancelled} else {Running, Cancelled})
  }

  lemma {:induction false} LeaveAndSave(s: State, w: ActorId, noticed: bool, judgments: seq<bool>, avg: Option<real>)
    requires Inv(s) && InLoop(s, w, noticed)
    ensures var id := s.workers[w].run;
      && Legal(s, SavingSteps(w, noticed, judgments, avg))
      && After(s, SavingSteps(w, noticed, judgments, avg))
         == s.(runs := s.runs[id := Outcome(s.runs[id], s.runs[id].status, judgments, avg, s.now)],
               workers := s.workers[w := Closing(id, noticed)])
  {
    assert WorkerOk(s, s.workers[w]);
    SavedRow(s, s.workers[w].run, judgments, avg);
    SaveAfter(s, w, noticed, if noticed then NoticeCancel(w) else LeaveLoop(w), judgments, avg);
  }

  lemma {:induction false} SaveAfter(s: State, w: ActorId, noticed: bool, leave: Step, judgments: seq<bool>,
                                     avg: Option<real>)
    requires w in s.workers && Enabled(s, leave) &&
        Apply(s, leave) == s.(workers := s.workers[w := Saving(s.workers[w].run, noticed)])
    ensures Legal(s, [leave, Persist(w, judgments, avg)])
    ensures After(s, [leave, Persist(w, judgments, avg)])
         == s.(runs := Saved(s.runs, s.workers[w].run, judgments, avg, s.now),
               workers := s.workers[w := Closing(s.workers[w].run, noticed)])
  {
    Two(s, leave, Persist(w, judgments, avg));
  }

  lemma {:induction false} CloseAndWrite(s: State, w: ActorId, noticed: bool)
    requires w in s.workers && s.workers[w].Closing? && s.workers[w].cancelled == noticed
    requires s.workers[w].run in s.runs && s.runs[s.workers[w].run].status in {Running, Cancelled}
    ensures var id := s.workers[w].run;
      && Legal(s, ClosingSteps(w, noticed))
      && After(s, ClosingSteps(w, noticed))
         == s.(runs := Overwritten(s.runs, id, if noticed then Cancelled else Completed, s.now),
               workers := s.workers[w := Finished(id)])
  {
    if noticed {
      Two(s, Raise(w), TerminalWrite(w));
    } else {
      Two(s, Conclude(w), TerminalWrite(w));
    }
  }

  /** From its event loop, an undisturbed worker ends a run with exactly the results it saved: a
      running run is completed, a cancellation it notices stands, and a cancellation it does not
      notice is overwritten by completed. */
  lemma {:induction false} UndisturbedExecution(s: State, w: ActorId, noticed: bool, judgments: seq<bool>,
                                                avg: Option<real>)
    requires Inv(s) && InLoop(s, w, noticed)
    ensures var id := s.workers[w].run;
      && Legal(s, SavingSteps(w, noticed, judgments, avg))
      && var mid := After(s, SavingSteps(w, noticed, judgments, avg));
      && Legal(mid, ClosingSteps(w, noticed))
      && After(mid, ClosingSteps(w, noticed)).runs
         == s.runs[id := Outcome(s.runs[id], if noticed then Cancelled else Completed, judgments, avg, s.now)]
  {
    LeaveAndSave(s, w, noticed, judgments, avg);
    var id := s.workers[w].run;
    var mid := After(s, SavingSteps(w, noticed, judgments, avg));
    assert mid.runs == s.runs[id := Outcome(s.runs[id], s.runs[id].status, judgments, avg, s.now)];
    CloseAndWrite(mid, w, noticed);
    StatusAfterOutcome(s.runs, id, s.runs[id].status, if noticed then Cancelled else Completed, judgments, avg, s.now);
  }

  lemma StatusAfterOutcome(runs: Table, id: RunId, from: Status, to: Status, judgments: seq<bool>, avg: Option<real>,
                           now: int)
    requires id in runs
    ensures Overwritten(runs[id := Outcome(runs[id], from, judgments, avg, now)], id, to, now)
         == runs[id := Outcome(runs[id], to, judgments, avg, now)]
  {
  }

  /** Saving the results of a run that has none. */
  lemma SavedRow(s: State, r: RunId, judgments: seq<bool>, avg: Option<real>)
    requires Inv(s) && r in s.runs && !ResultsSaved(s.runs[r])
    ensures Saved(s.runs, r, judgments, avg, s.now)
         == s.runs[r := Outcome(s.runs[r], s.runs[r].status, judgments, avg, s.now)]
  {
    assert RowOk(s.runs[r], s.now);
    assert s.runs[r].judgments + judgments == judgments;
  }

  // ---------------------------------------------------------------- reachable states

  /** Some execution from the empty system ends in s. */
  ghost predicate Reachable(s: State) {
    exists states, steps :: Execution(states, steps) && states[|steps|] == s
  }

  lemma StartIsReachable(s: State)
    requires Init(s)
    ensures Reachable(s)
  {
    var states, steps: seq<Step> := [s], [];
    assert Execution(states, steps) && states[|steps|] == s;
  }

  lemma ReachableStep(s: State, step: Step)
    requires Reachable(s) && Enabled(s, step)
    ensures Reachable(Apply(s, step))
  {
    var states, steps :| Execution(states, steps) && states[|steps|] == s;
    var states', steps' := states + [Apply(s, step)], steps + [step];
    forall i | 0 <= i < |steps'| ensures StepAt(states', steps', i) {
      assert i < |steps| ==> StepAt(states, steps, i);
    }
    assert Execution(states', steps') && states'[|steps'|] == Apply(s, step);
  }

  lemma {:induction false} ReachableAlong(s: State, steps: seq<Step>)
    requires Reachable(s) && Legal(s, steps)
    ensures Reachable(After(s, steps))
    decreases |steps|
  {
    if steps != [] {
      ReachableStep(s, steps[0]);
      ReachableAlong(Apply(s, steps[0]), steps[1..]);
    }
  }

  lemma ReachableInv(s: State)
    requires Reachable(s)
    ensures Inv(s)
  {
    var states, steps :| Execution(states, steps) && states[|steps|] == s;
    InvAlways(states, steps, |steps|);
  }

  /** A stretch of an execution is a path. */
  lemma {:induction false} StretchIsAPath(states: seq<State>, steps: seq<Step>, i: nat, j: nat)
    requires Execution(states, steps) && i <= j < |states|
    ensures Legal(states[i], steps[i..j]) && After(states[i], steps[i..j]) == states[j]
    decreases j - i
  {
    if i < j {
      StretchIsAPath(states, steps, i + 1, j);
      assert StepAt(states, steps, i);
      assert steps[i..j][1..] == steps[i + 1..j];
    }
  }
}
