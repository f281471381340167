/** When the sweeper fails a run: exactly when the run has beaten and its last beat is older than
    the sweeper's cutoff. */
module Heartbeats {
  import opened Wrappers
  import opened RunTable
  import opened RunLifecycle
  import opened RunSafety
  import opened RunTheorems

  const HEARTBEAT_INTERVAL_SECONDS := 30

  /** In a reachable state a sweep changes a run if and only if it is running and its last beat is
      older than the cutoff. The sweeper's second statement, for runs that started but never beat,
      selects nothing: no code sets started_at, and NULL < cutoff is not true. */
  lemma SweepFailsExactlyTheSilent(s: State, cutoff: int, r: RunId)
    requires Inv(s) && Enabled(s, Sweep(cutoff)) && r in s.runs
    ensures var run, run' := s.runs[r], Apply(s, Sweep(cutoff)).runs[r];
      && (run' != run <==> run.status == Running && run.heartbeatAt.Some? && run.heartbeatAt.value < cutoff)
      && (run' != run ==> run' == run.(status := Failed, updatedAt := s.now))
  {
    assert RowOk(s.runs[r], s.now);
  }

  /** The i-th step is a successful beat of run r, stamped `at`. */
  ghost predicate BeatsAt(states: seq<State>, steps: seq<Step>, i: int, r: RunId, at: int) {
    && 0 <= i < |steps| && i < |states|
    && steps[i].BeatWrite? && steps[i].at == at
    && steps[i].w in states[i].workers && states[i].workers[steps[i].w].run == r
    && r in states[i].runs
  }

  /** A recorded beat is one that happened. */
  lemma {:induction false} RecordedBeatsHappened(states: seq<State>, steps: seq<Step>, i: nat, r: RunId)
    requires Execution(states, steps) && i < |states| && r in states[i].runs && states[i].runs[r].heartbeatAt.Some?
    ensures exists j :: 0 <= j < i && BeatsAt(states, steps, j, r, states[i].runs[r].heartbeatAt.value)
  {
    assert i > 0 by { assert states[0].runs == map[]; }
    BeatOrSame(states, steps, i - 1, r);
    if !BeatsAt(states, steps, i - 1, r, states[i].runs[r].heartbeatAt.value) {
      RecordedBeatsHappened(states, steps, i - 1, r);
    }
  }

  lemma BeatOrSame(states: seq<State>, steps: seq<Step>, i: nat, r: RunId)
    requires Execution(states, steps) && i < |steps| && r in states[i + 1].runs
    requires states[i + 1].runs[r].heartbeatAt.Some?
    ensures BeatsAt(states, steps, i, r, states[i + 1].runs[r].heartbeatAt.value)
         || (r in states[i].runs && states[i].runs[r].heartbeatAt == states[i + 1].runs[r].heartbeatAt)
  {
    InvAlways(states, steps, i);
    assert StepAt(states, steps, i);
    StepKeepsIds(states[i], steps[i]);
    if r in states[i].runs && !(steps[i].BeatWrite? && states[i].workers[steps[i].w].run == r) {
      HeartbeatOnlyByBeating(states[i], steps[i], r);
    }
  }

  /** A run that has never beaten is never swept, however long it has been running: against the
      sweeper's own documentation, a worker that dies before its first beat leaves its run running. */
  lemma NeverBeatenNeverSwept(states: seq<State>, steps: seq<Step>, i: nat, r: RunId)
    requires Execution(states, steps) && i < |steps| && steps[i].Sweep? && r in states[i].runs
    requires forall j, at :: 0 <= j < i ==> !BeatsAt(states, steps, j, r, at)
    ensures r in states[i + 1].runs && states[i + 1].runs[r] == states[i].runs[r]
  {
    InvAlways(states, steps, i);
    assert StepAt(states, steps, i);
    if states[i].runs[r].heartbeatAt.Some? {
      RecordedBeatsHappened(states, steps, i, r);
    }
    SweepFailsExactlyTheSilent(states[i], steps[i].cutoff, r);
  }

  /** One run has one worker, its beats follow one another, so the recorded beat only moves forward. */
  lemma BeatGrows(s: State, step: Step, r: RunId)
    requires Inv(s) && Enabled(s, step) && r in s.runs && r in Apply(s, step).runs && s.runs[r].heartbeatAt.Some?
    ensures Apply(s, step).runs[r].heartbeatAt.Some?
    ensures s.runs[r].heartbeatAt.value <= Apply(s, step).runs[r].heartbeatAt.value
  {
    if step.BeatWrite? && s.workers[step.w].run == r {
      assert BeatOk(s, r, s.beats[step.w]);
    } else {
      HeartbeatOnlyByBeating(s, step, r);
    }
  }

  lemma BeatGrowsAt(states: seq<State>, steps: seq<Step>, i: nat, r: RunId)
    requires Execution(states, steps) && i < |steps|
    requires r in states[i].runs && r in states[i + 1].runs && states[i].runs[r].heartbeatAt.Some?
    ensures states[i + 1].runs[r].heartbeatAt.Some?
    ensures states[i].runs[r].heartbeatAt.value <= states[i + 1].runs[r].heartbeatAt.value
  {
    InvAlways(states, steps, i);
    assert StepAt(states, steps, i);
    BeatGrows(states[i], steps[i], r);
  }

  lemma {:induction false} BeatStays(states: seq<State>, steps: seq<Step>, j: nat, i: nat, r: RunId, at: int)
    requires Execution(states, steps) && j < i < |states| && BeatsAt(states, steps, j, r, at) && r in states[i].runs
    ensures states[i].runs[r].heartbeatAt.Some? && at <= states[i].runs[r].heartbeatAt.value
  {
    if j + 1 == i {
      assert StepAt(states, steps, j);
    } else {
      InvAlways(states, steps, j);
      IssuedGrows(states, steps, j, i - 1);
      RowsMoveForward(states, steps, i - 1, i, r);
      BeatStays(states, steps, j, i - 1, r, at);
      BeatGrowsAt(states, steps, i - 1, r);
    }
  }

  /** A beat no older than the zombie timeout protects its run from a sweep. */
  lemma RecentBeatProtects(states: seq<State>, steps: seq<Step>, j: nat, i: nat, r: RunId, at: int)
    requires Execution(states, steps) && j < i < |steps| && BeatsAt(states, steps, j, r, at)
    requires steps[i].Sweep? && r in states[i].runs && states[i].now - at <= ZOMBIE_TIMEOUT_SECONDS
    ensures r in states[i + 1].runs && states[i + 1].runs[r] == states[i].runs[r]
  {
    InvAlways(states, steps, i);
    assert StepAt(states, steps, i);
    BeatStays(states, steps, j, i, r, at);
    SweepFailsExactlyTheSilent(states[i], steps[i].cutoff, r);
  }

  /** The last beat of run r before step i. */
  lemma {:induction false} LastBeatBefore(states: seq<State>, steps: seq<Step>, i: nat, r: RunId)
    returns (j: nat, at: int)
    requires i <= |steps| && exists k, t :: 0 <= k < i && BeatsAt(states, steps, k, r, t)
    ensures j < i && BeatsAt(states, steps, j, r, at)
    ensures forall k, t :: j < k < i ==> !BeatsAt(states, steps, k, r, t)
  {
    if steps[i - 1].BeatWrite? && BeatsAt(states, steps, i - 1, r, steps[i - 1].at) {
      j, at := i - 1, steps[i - 1].at;
    } else {
      j, at := LastBeatBefore(states, steps, i - 1, r);
    }
  }

  /** Beat j is followed by another that commits within the zombie timeout, or the execution ends
      within it. */
  ghost predicate FollowedInTime(states: seq<State>, steps: seq<Step>, j: int, r: RunId, at: int) {
    && |states| > 0
    && (|| states[|states| - 1].now - at <= ZOMBIE_TIMEOUT_SECONDS
        || exists k, later ::
             j < k && BeatsAt(states, steps, k, r, later) && states[k].now - at <= ZOMBIE_TIMEOUT_SECONDS)
  }

  ghost predicate RegularBeats(states: seq<State>, steps: seq<Step>, r: RunId) {
    forall j, at :: BeatsAt(states, steps, j, r, at) ==> FollowedInTime(states, steps, j, r, at)
  }

  lemma StillRecent(states: seq<State>, steps: seq<Step>, j: nat, i: nat, r: RunId, at: int)
    requires Execution(states, steps) && j < i < |steps| && steps[i].Sweep?
    requires forall k, t :: j < k < i ==> !BeatsAt(states, steps, k, r, t)
    requires FollowedInTime(states, steps, j, r, at)
    ensures states[i].now - at <= ZOMBIE_TIMEOUT_SECONDS
  {
    if states[|states| - 1].now - at <= ZOMBIE_TIMEOUT_SECONDS {
      IssuedGrows(states, steps, i, |states| - 1);
    } else {
      var k, later :| j < k && BeatsAt(states, steps, k, r, later) && states[k].now - at <= ZOMBIE_TIMEOUT_SECONDS;
      assert k > i;
      IssuedGrows(states, steps, i, k);
    }
  }

  /** A run that has beaten once and whose successful beats are never more than the zombie timeout
      apart is never swept. */
  lemma RegularBeatsAreNeverSwept(states: seq<State>, steps: seq<Step>, j: nat, i: nat, r: RunId, at: int)
    requires Execution(states, steps) && j < i < |steps|
    requires BeatsAt(states, steps, j, r, at) && RegularBeats(states, steps, r)
    requires steps[i].Sweep? && r in states[i].runs
    ensures r in states[i + 1].runs && states[i + 1].runs[r] == states[i].runs[r]
  {
    var last, stamp := LastBeatBefore(states, steps, i, r);
    StillRecent(states, steps, last, i, r, stamp);
    RecentBeatProtects(states, steps, last, i, r, stamp);
  }

  /** A running run is failed by the first sweep whose cutoff lies past its last beat. */
  lemma SilentRunIsSwept(states: seq<State>, steps: seq<Step>, j: nat, i: nat, r: RunId, at: int)
    requires Execution(states, steps) && j < i < |steps| && BeatsAt(states, steps, j, r, at)
    requires forall k, later :: j < k < i ==> !BeatsAt(states, steps, k, r, later)
    requires steps[i].Sweep? && r in states[i].runs && states[i].runs[r].status == Running && at < steps[i].cutoff
    ensures r in states[i + 1].runs && states[i + 1].runs[r].status == Failed
  {
    InvAlways(states, steps, i);
    assert StepAt(states, steps, i);
    LastBeatIsRecorded(states, steps, j, i, r, at);
    SweepFailsExactlyTheSilent(states[i], steps[i].cutoff, r);
  }

  lemma {:induction false} LastBeatIsRecorded(states: seq<State>, steps: seq<Step>, j: nat, i: nat, r: RunId, at: int)
    requires Execution(states, steps) && j < i < |states| && BeatsAt(states, steps, j, r, at)
    requires forall k, later :: j < k < i ==> !BeatsAt(states, steps, k, r, later)
    requires r in states[i].runs
    ensures states[i].runs[r].heartbeatAt == Some(at)
  {
    if j + 1 == i {
      assert StepAt(states, steps, j);
    } else {
      InvAlways(states, steps, j);
      IssuedGrows(states, steps, j, i - 1);
      RowsMoveForward(states, steps, i - 1, i, r);
      LastBeatIsRecorded(states, steps, j, i - 1, r, at);
      BeatGrowsAt(states, steps, i - 1, r);
      BeatOrSame(states, steps, i - 1, r);
    }
  }

  /** A beat, however late it commits, leaves the run's status, results and pin and every other row
      alone, never moves the recorded beat back, and keeps the run from every sweep whose cutoff is
      not past it. */
  lemma BeatsTouchNothingElse(states: seq<State>, steps: seq<Step>, i: nat, r: RunId, at: int)
    requires Execution(states, steps) && BeatsAt(states, steps, i, r, at)
    ensures var s, s' := states[i], states[i + 1];
      && r in s'.runs
      && (s'.runs[r].status, s'.runs[r].judgments, s'.runs[r].total, s'.runs[r].passed, s'.runs[r].failed)
         == (s.runs[r].status, s.runs[r].judgments, s.runs[r].total, s.runs[r].passed, s.runs[r].failed)
      && s'.runs[r].isBaseline == s.runs[r].isBaseline && s'.runs[r].avgScore == s.runs[r].avgScore
      && (forall q :: q in s.runs && q != r ==> q in s'.runs && s'.runs[q] == s.runs[q])
      && s'.runs[r].heartbeatAt.Some?
      && (s.runs[r].heartbeatAt.Some? ==> s.runs[r].heartbeatAt.value <= s'.runs[r].heartbeatAt.value <= s'.now)
      && forall cutoff :: cutoff <= at ==> !Zombie(s'.runs[r], cutoff)
  {
    InvAlways(states, steps, i);
    InvAlways(states, steps, i + 1);
    assert StepAt(states, steps, i);
    BeatFacts(states[i], steps[i].w);
    BeatFacts(states[i + 1], steps[i].w);
  }

  // ---------------------------------------------------------------- lost beats

  /** When the m-th beat is due. */
  function Due(first: int, m: nat): int { first + HEARTBEAT_INTERVAL_SECONDS * m }

  /** Some beat before step i is stamped with the m-th due time; otherwise that beat was lost. */
  ghost predicate SlotBeaten(states: seq<State>, steps: seq<Step>, i: nat, r: RunId, first: int, m: nat) {
    exists j :: 0 <= j < i && BeatsAt(states, steps, j, r, Due(first, m))
  }

  /** Up to step i the run beats when it is due, if at all. */
  ghost predicate OnSchedule(states: seq<State>, steps: seq<Step>, i: nat, r: RunId, first: int) {
    forall j, at :: 0 <= j < i && BeatsAt(states, steps, j, r, at) ==> exists m: nat :: at == Due(first, m)
  }

  /** The k-th beat is the last there was, and ten more have come due and been lost. */
  ghost predicate TenLostAfter(states: seq<State>, steps: seq<Step>, i: nat, r: RunId, first: int, k: nat)
    requires i < |states|
  {
    && SlotBeaten(states, steps, i, r, first, k)
    && (forall m: nat :: k < m ==> !SlotBeaten(states, steps, i, r, first, m))
    && Due(first, k + 10) < states[i].now
  }

  lemma LastBeatIsLatest(states: seq<State>, steps: seq<Step>, i: nat, r: RunId, first: int, last: nat, k: nat, m: nat)
    requires Execution(states, steps) && last < i < |states| && r in states[i].runs
    requires BeatsAt(states, steps, last, r, Due(first, k)) && states[i].runs[r].heartbeatAt == Some(Due(first, k))
    requires SlotBeaten(states, steps, i, r, first, m)
    ensures m <= k
  {
    var j :| 0 <= j < i && BeatsAt(states, steps, j, r, Due(first, m));
    BeatStays(states, steps, j, i, r, Due(first, m));
  }

  /** With beats due every 30 seconds, a sweep fails a running run that has beaten if and only if the
      last ten beats due were lost: nine lost in a row are always survived. */
  lemma NineLostBeatsAreSafe(states: seq<State>, steps: seq<Step>, i: nat, r: RunId, first: int)
    requires Execution(states, steps) && i < |steps| && steps[i] == Sweep(states[i].now - ZOMBIE_TIMEOUT_SECONDS)
    requires r in states[i].runs && states[i].runs[r].status == Running
    requires OnSchedule(states, steps, i, r, first)
    requires exists j, at :: 0 <= j < i && BeatsAt(states, steps, j, r, at)
    ensures r in states[i + 1].runs
    ensures states[i + 1].runs[r].status == Failed <==> exists k: nat :: TenLostAfter(states, steps, i, r, first, k)
  {
    InvAlways(states, steps, i);
    assert StepAt(states, steps, i);
    var last, stamp := LastBeatBefore(states, steps, i, r);
    LastBeatIsRecorded(states, steps, last, i, r, stamp);
    SweepFailsExactlyTheSilent(states[i], steps[i].cutoff, r);
    var k: nat :| stamp == Due(first, k);
    assert SlotBeaten(states, steps, i, r, first, k);
    forall m: nat | SlotBeaten(states, steps, i, r, first, m) ensures m <= k {
      LastBeatIsLatest(states, steps, i, r, first, last, k, m);
    }
    assert stamp < states[i].now - ZOMBIE_TIMEOUT_SECONDS <==> TenLostAfter(states, steps, i, r, first, k);
    forall other: nat | TenLostAfter(states, steps, i, r, first, other) ensures other == k {
      assert !(other < k);
    }
  }
}
