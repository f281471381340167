/** The lifecycle invariant holds in every reachable state, and what follows from it: the
    concurrency limit, one claim per run, monotone statuses, saved results of completed runs. */
module RunSafety {
  import opened Wrappers
  import opened RunTable
  import opened RunLifecycle

  // ---------------------------------------------------------------- rows

  /** Counters and Judgment rows move together when results are saved. */
  lemma SavedRowOk(runs: Table, r: RunId, judgments: seq<bool>, avg: Option<real>, now: int)
    requires r in runs && RowOk(runs[r], now)
    ensures RowOk(Saved(runs, r, judgments, avg, now)[r], now)
  {
    CountPassedAppend(judgments, []);
    CountPassedAppend(runs[r].judgments, judgments);
  }

  /** A row whose results columns stay, whose status becomes completed only when they are saved, and
      whose beat is not in the future. */
  lemma UntouchedResultsOk(old_: Run, new_: Run, then_: int, now: int)
    requires RowOk(old_, then_) && then_ <= now
    requires (new_.total, new_.passed, new_.failed, new_.judgments) ==
        (old_.total, old_.passed, old_.failed, old_.judgments)
    requires (new_.startedAt, new_.embeddingVersion, new_.avgScore) ==
        (old_.startedAt, old_.embeddingVersion, old_.avgScore)
    requires new_.isBaseline ==> old_.isBaseline || ResultsSaved(old_)
    requires new_.status == Completed ==> old_.status == Completed || ResultsSaved(old_)
    requires new_.heartbeatAt == old_.heartbeatAt || (new_.heartbeatAt.Some? && new_.heartbeatAt.value <= now)
    ensures RowOk(new_, now)
  {
  }

  /** What the steps other than saving leave alone in a row. */
  lemma ResultsOnlyBySaving(s: State, step: Step, r: RunId)
    requires Enabled(s, step) && !step.Persist? && (step.Insert? ==> step.id != r)
    requires r in s.runs && r in TableAfter(s, step)
    ensures var old_, new_ := s.runs[r], TableAfter(s, step)[r];
      && (new_.total, new_.passed, new_.failed, new_.judgments) ==
          (old_.total, old_.passed, old_.failed, old_.judgments)
      && (new_.startedAt, new_.embeddingVersion, new_.avgScore) ==
          (old_.startedAt, old_.embeddingVersion, old_.avgScore)
  {
  }

  lemma CompletedOnlyByTerminalWrite(s: State, step: Step, r: RunId)
    requires Enabled(s, step) && (step.Insert? ==> step.id != r)
    requires r in s.runs && r in TableAfter(s, step) && TableAfter(s, step)[r].status == Completed
    ensures s.runs[r].status == Completed
      || (step.TerminalWrite? && s.workers[step.w].run == r && s.workers[step.w].verdict == Completed)
  {
  }

  lemma PinnedOnlyByPinning(s: State, step: Step, r: RunId)
    requires Enabled(s, step) && (step.Insert? ==> step.id != r)
    requires r in s.runs && r in TableAfter(s, step) && TableAfter(s, step)[r].isBaseline
    ensures s.runs[r].isBaseline || (step.PinCommit? && s.pins[step.p] == r)
  {
  }

  lemma BeatenOnlyByBeating(s: State, step: Step, r: RunId)
    requires Enabled(s, step) && (step.Insert? ==> step.id != r)
    requires r in s.runs && r in TableAfter(s, step)
    ensures TableAfter(s, step)[r].heartbeatAt
         == if step.BeatWrite? && s.workers[step.w].run == r then Some(step.at) else s.runs[r].heartbeatAt
  {
  }

  /** Together, with what the invariant says about the actor that moves. */
  lemma RowStaysOk(s: State, step: Step, r: RunId)
    requires Enabled(s, step) && r in s.runs && RowOk(s.runs[r], s.now)
    requires step.TerminalWrite? ==> WorkerOk(s, s.workers[step.w])
    requires step.PinCommit? ==> PinOk(s, s.pins[step.p])
    requires !step.Persist? && (step.Insert? ==> step.id != r)
    requires r in TableAfter(s, step)
    ensures forall now :: s.now <= now ==> RowOk(TableAfter(s, step)[r], now)
  {
    var new_ := TableAfter(s, step)[r];
    ResultsOnlyBySaving(s, step, r);
    BeatenOnlyByBeating(s, step, r);
    if new_.status == Completed {
      CompletedOnlyByTerminalWrite(s, step, r);
    }
    if new_.isBaseline {
      PinnedOnlyByPinning(s, step, r);
    }
    forall now | s.now <= now ensures RowOk(new_, now) {
      UntouchedResultsOk(s.runs[r], new_, s.now, now);
    }
  }

  lemma SavingStaysOk(s: State, step: Step, r: RunId)
    requires Enabled(s, step) && step.Persist? && r in s.runs && RowOk(s.runs[r], s.now)
    ensures r in TableAfter(s, step) && RowOk(TableAfter(s, step)[r], s.now)
  {
    if s.workers[step.w].run == r {
      SavedRowOk(s.runs, r, step.judgments, step.avg, s.now);
    }
  }

  lemma RowOkStep(s: State, step: Step, r: RunId)
    requires Inv(s) && Enabled(s, step) && r in TableAfter(s, step)
    ensures forall now :: s.now <= now ==> RowOk(TableAfter(s, step)[r], now)
  {
    TableIds(s, step);
    if step.Persist? {
      SavingStaysOk(s, step, r);
    } else if !step.Insert? || step.id != r {
      if step.TerminalWrite? {
        assert WorkerOk(s, s.workers[step.w]);
      }
      if step.PinCommit? {
        assert PinOk(s, s.pins[step.p]);
      }
      RowStaysOk(s, step, r);
    }
  }

  lemma TableInvStep(s: State, step: Step)
    requires Inv(s) && Enabled(s, step)
    ensures TableInv(Apply(s, step))
  {
    StepKeepsIds(s, step);
    AppliesTable(s, step);
    forall r | r in Apply(s, step).runs ensures RowOk(Apply(s, step).runs[r], Apply(s, step).now) {
      RowOkStep(s, step, r);
    }
  }

  // ---------------------------------------------------------------- locks and counts

  /** Only an insertion adds to a tenant's active runs, and it adds one run of one tenant. */
  lemma ActiveGrowth(s: State, step: Step, tenant: TenantId)
    requires Inv(s) && Enabled(s, step)
    ensures |ActiveRuns(Apply(s, step).runs, tenant)|
         <= |ActiveRuns(s.runs, tenant)| + (if step.Insert? && s.creators[step.c].tenant == tenant then 1 else 0)
  {
    var s' := Apply(s, step);
    var added := if step.Insert? && s.creators[step.c].tenant == tenant then {step.id} else {};
    StepKeepsIds(s, step);
    forall r | r in ActiveRuns(s'.runs, tenant) ensures r in ActiveRuns(s.runs, tenant) + added {
      if r in s.runs {
        StepKeepsRank(s, step, r);
      }
    }
    SubsetSize(ActiveRuns(s'.runs, tenant), ActiveRuns(s.runs, tenant) + added);
  }

  lemma HoldersStep(s: State, step: Step, c: ActorId)
    requires LocksAreHeld(s) && Enabled(s, step) && Holds(Apply(s, step), c)
    ensures var s' := Apply(s, step);
      LockId(s'.creators[c].tenant) in s'.locks && s'.locks[LockId(s'.creators[c].tenant)] == c
  {
    assert !step.AcquireLock? || step.c != c ==> Holds(s, c);
    if (step.Refuse? || step.Insert? || (step.Abort? && Holds(s, step.c))) && step.c != c {
      assert Holds(s, step.c);
    }
  }

  lemma CountsStep(s: State, step: Step, c: ActorId)
    requires Inv(s) && Enabled(s, step)
    requires c in Apply(s, step).creators && Apply(s, step).creators[c].Counted?
    ensures |ActiveRuns(Apply(s, step).runs, Apply(s, step).creators[c].tenant)| <= Apply(s, step).creators[c].observed
  {
    ActiveGrowth(s, step, Apply(s, step).creators[c].tenant);
    if step.Insert? {
      assert Holds(s, step.c) && Holds(s, c);
    }
  }

  lemma LocksStep(s: State, step: Step, l: nat)
    requires LocksAreHeld(s) && Enabled(s, step) && l in Apply(s, step).locks
    ensures var s' := Apply(s, step); Holds(s', s'.locks[l]) && LockId(s'.creators[s'.locks[l]].tenant) == l
  {
  }

  lemma LockInvStep(s: State, step: Step)
    requires Inv(s) && Enabled(s, step)
    ensures LockInv(Apply(s, step))
  {
    var s' := Apply(s, step);
    forall l | l in s'.locks ensures Holds(s', s'.locks[l]) && LockId(s'.creators[s'.locks[l]].tenant) == l {
      LocksStep(s, step, l);
    }
    forall c | Holds(s', c)
      ensures LockId(s'.creators[c].tenant) in s'.locks && s'.locks[LockId(s'.creators[c].tenant)] == c
    {
      HoldersStep(s, step, c);
    }
    forall c | c in s'.creators && s'.creators[c].Counted?
      ensures |ActiveRuns(s'.runs, s'.creators[c].tenant)| <= s'.creators[c].observed
    {
      CountsStep(s, step, c);
    }
    forall t: TenantId ensures |ActiveRuns(s'.runs, t)| <= MAX_ACTIVE_RUNS {
      ActiveGrowth(s, step, t);
    }
  }

  // ---------------------------------------------------------------- workers and requests

  /** Only a worker of the run saves its results. */
  lemma UnsavedStaysUnsaved(s: State, step: Step, r: RunId)
    requires Enabled(s, step) && r in s.runs && r in Apply(s, step).runs && (step.Insert? ==> step.id != r)
    requires step.Persist? ==> s.workers[step.w].run != r
    ensures ResultsSaved(Apply(s, step).runs[r]) ==> ResultsSaved(s.runs[r])
  {
    AppliesTable(s, step);
    if !step.Persist? {
      ResultsOnlyBySaving(s, step, r);
    }
  }

  /** A worker keeps agreeing with its row while other actors move. */
  lemma BystanderStaysOk(s: State, step: Step, worker: Worker)
    requires s.runs.Keys <= s.issued && WorkerInv(s) && Enabled(s, step) && WorkerOk(s, worker)
    requires step.Persist? ==> s.workers[step.w].run != worker.run
    ensures WorkerOk(Apply(s, step), worker)
  {
    StepKeepsIds(s, step);
    var s' := Apply(s, step);
    if worker.run in s'.runs {
      StepKeepsRank(s, step, worker.run);
      UnsavedStaysUnsaved(s, step, worker.run);
    }
  }

  /** A step of a worker that moves it without touching the table. */
  predicate LocalMove(step: Step) { step.LeaveLoop? || step.NoticeCancel? || step.Conclude? || step.Raise? }

  lemma WorkersMoveThemselves(s: State, step: Step, w: ActorId)
    requires Enabled(s, step) && w in Apply(s, step).workers
    requires w in s.workers ==> s.workers[w] != Apply(s, step).workers[w]
    ensures (LocalMove(step) || step.Claim? || step.Persist? || step.TerminalWrite?) && step.w == w
  {
  }

  lemma LocalMoveOk(s: State, step: Step)
    requires LocalMove(step) && Enabled(s, step) && WorkerOk(s, s.workers[step.w])
    ensures WorkerOk(Apply(s, step), Apply(s, step).workers[step.w])
  {
  }

  lemma ClaimOk(s: State, w: ActorId, id: RunId)
    requires Inv(s) && Enabled(s, Claim(w, id)) && w in Apply(s, Claim(w, id)).workers
    ensures WorkerOk(Apply(s, Claim(w, id)), Apply(s, Claim(w, id)).workers[w])
  {
  }

  /** The step of worker w itself leaves it agreeing with its row. */
  lemma MoverStaysOk(s: State, step: Step, w: ActorId)
    requires Inv(s) && Enabled(s, step) && w in Apply(s, step).workers
    requires w in s.workers ==> s.workers[w] != Apply(s, step).workers[w]
    ensures WorkerOk(Apply(s, step), Apply(s, step).workers[w])
  {
    WorkersMoveThemselves(s, step, w);
    if step.Claim? {
      ClaimOk(s, w, step.id);
    } else {
      assert WorkerOk(s, s.workers[w]);
      if LocalMove(step) {
        LocalMoveOk(s, step);
      }
    }
  }

  lemma WorkerStaysOk(s: State, step: Step, w: ActorId)
    requires Inv(s) && Enabled(s, step) && w in Apply(s, step).workers
    ensures WorkerOk(Apply(s, step), Apply(s, step).workers[w])
  {
    if w !in s.workers || s.workers[w] != Apply(s, step).workers[w] {
      MoverStaysOk(s, step, w);
    } else {
      BystanderStaysOk(s, step, s.workers[w]);
    }
  }

  /** Where a worker after a step comes from. */
  lemma WorkersComeFrom(s: State, step: Step, w: ActorId)
    requires Enabled(s, step) && w in Apply(s, step).workers
    ensures var run := Apply(s, step).workers[w].run;
      if w in s.workers then run == s.workers[w].run
      else step.Claim? && step.w == w && run == step.id && run in s.runs && s.runs[run].status == Pending
  {
  }

  /** A pending run has no worker. */
  lemma PendingIsFree(s: State, w: ActorId, r: RunId)
    requires WorkerInv(s) && w in s.workers && r in s.runs && s.runs[r].status == Pending
    ensures s.workers[w].run != r
  {
    assert WorkerOk(s, s.workers[w]);
  }

  lemma WorkersStayApart(s: State, step: Step, w: ActorId, v: ActorId)
    requires Inv(s) && Enabled(s, step)
    requires w in Apply(s, step).workers && v in Apply(s, step).workers && w != v
    ensures Apply(s, step).workers[w].run != Apply(s, step).workers[v].run
  {
    WorkersComeFrom(s, step, w);
    WorkersComeFrom(s, step, v);
    if w !in s.workers {
      PendingIsFree(s, v, step.id);
    } else if v !in s.workers {
      PendingIsFree(s, w, step.id);
    }
  }

  lemma PendingStaysUnsaved(s: State, step: Step, r: RunId)
    requires Inv(s) && Enabled(s, step)
    requires r in Apply(s, step).runs && Apply(s, step).runs[r].status == Pending
    ensures !ResultsSaved(Apply(s, step).runs[r])
  {
    AppliesTable(s, step);
    if step.Insert? && step.id == r {
      assert TableAfter(s, step)[r].embeddingVersion == None;
    } else {
      TableIds(s, step);
      StepKeepsRank(s, step, r);
      if step.Persist? {
        assert WorkerOk(s, s.workers[step.w]);
      }
      UnsavedStaysUnsaved(s, step, r);
    }
  }

  lemma WorkerInvStep(s: State, step: Step)
    requires Inv(s) && Enabled(s, step)
    ensures WorkerInv(Apply(s, step))
  {
    var s' := Apply(s, step);
    forall w | w in s'.workers ensures WorkerOk(s', s'.workers[w]) {
      WorkerStaysOk(s, step, w);
    }
    forall w, v | w in s'.workers && v in s'.workers && w != v ensures s'.workers[w].run != s'.workers[v].run {
      WorkersStayApart(s, step, w, v);
    }
    forall r | r in s'.runs && s'.runs[r].status == Pending ensures !ResultsSaved(s'.runs[r]) {
      PendingStaysUnsaved(s, step, r);
    }
  }

  lemma PinsStayOk(s: State, step: Step, p: ActorId)
    requires Inv(s) && Enabled(s, step) && p in Apply(s, step).pins
    ensures PinOk(Apply(s, step), Apply(s, step).pins[p])
  {
    var r := Apply(s, step).pins[p];
    StepKeepsIds(s, step);
    if p in s.pins && s.pins[p] == r {
      assert PinOk(s, r);
    }
    if r in s.runs && r in Apply(s, step).runs {
      StepKeepsRank(s, step, r);
    }
  }

  /** The recorded beat of a row changes only by a heartbeat write of a worker of that run. */
  lemma HeartbeatOnlyByBeating(s: State, step: Step, r: RunId)
    requires Enabled(s, step) && r in s.runs && r in Apply(s, step).runs
    requires step.Insert? ==> step.id != r
    requires !(step.BeatWrite? && s.workers[step.w].run == r)
    ensures Apply(s, step).runs[r].heartbeatAt == s.runs[r].heartbeatAt
  {
    AppliesTable(s, step);
    BeatenOnlyByBeating(s, step, r);
  }

  /** Where a pending beat after a step comes from. */
  lemma BeatsComeFrom(s: State, step: Step, w: ActorId)
    requires Enabled(s, step) && w in Apply(s, step).beats && RequestInv(s)
    ensures w in s.workers && w in Apply(s, step).workers && Apply(s, step).workers[w].run == s.workers[w].run
    ensures if w in s.beats then Apply(s, step).beats[w] == s.beats[w] && !(step.BeatWrite? && step.w == w)
            else step.BeatRead? && Apply(s, step).beats[w] == s.now
  {
  }

  lemma BeatsStayOk(s: State, step: Step, w: ActorId)
    requires Inv(s) && Enabled(s, step) && w in Apply(s, step).beats
    ensures var s' := Apply(s, step); w in s'.workers && BeatOk(s', s'.workers[w].run, s'.beats[w])
  {
    BeatsComeFrom(s, step, w);
    AppliesTable(s, step);
    TableIds(s, step);
    var r := s.workers[w].run;
    assert WorkerOk(s, s.workers[w]);
    BeatFacts(s, w);
    if r in TableAfter(s, step) {
      BeatenOnlyByBeating(s, step, r);
    }
  }

  lemma BeatFacts(s: State, w: ActorId)
    requires Inv(s) && w in s.workers
    ensures w in s.beats ==> BeatOk(s, s.workers[w].run, s.beats[w])
    ensures s.workers[w].run in s.runs ==> RowOk(s.runs[s.workers[w].run], s.now)
    ensures forall v :: v in s.workers && v != w ==> s.workers[v].run != s.workers[w].run
  {
  }

  lemma EnqueuedAreIssued(s: State, step: Step, c: ActorId)
    requires RequestInv(s) && Enabled(s, step) && c in Apply(s, step).creators && Apply(s, step).creators[c].Enqueuing?
    ensures Apply(s, step).creators[c].run in Apply(s, step).issued
  {
  }

  lemma CancelledAreIssued(s: State, step: Step, k: ActorId)
    requires TableInv(s) && RequestInv(s) && Enabled(s, step) && k in Apply(s, step).cancellers
    ensures Apply(s, step).cancellers[k] in Apply(s, step).issued
  {
  }

  lemma RequestInvStep(s: State, step: Step)
    requires Inv(s) && Enabled(s, step)
    ensures RequestInv(Apply(s, step))
  {
    var s' := Apply(s, step);
    forall p | p in s'.pins ensures PinOk(s', s'.pins[p]) {
      PinsStayOk(s, step, p);
    }
    forall w | w in s'.beats ensures w in s'.workers && BeatOk(s', s'.workers[w].run, s'.beats[w]) {
      BeatsStayOk(s, step, w);
    }
    forall c | c in s'.creators && s'.creators[c].Enqueuing? ensures s'.creators[c].run in s'.issued {
      EnqueuedAreIssued(s, step, c);
    }
    forall k | k in s'.cancellers ensures s'.cancellers[k] in s'.issued {
      CancelledAreIssued(s, step, k);
    }
  }

  /** Only the pinning transaction sets the flag. */
  lemma PinsOnlyByPinning(s: State, step: Step, r: RunId)
    requires Enabled(s, step) && !step.PinCommit? && r in Apply(s, step).runs && Apply(s, step).runs[r].isBaseline
    ensures r in s.runs && s.runs[r].isBaseline
  {
    AppliesTable(s, step);
    TableIds(s, step);
    if !step.Insert? || step.id != r {
      PinnedOnlyByPinning(s, step, r);
    }
  }

  /** And it clears the flag of the agent's other runs. */
  lemma PinningUnpinsOthers(runs: Table, p: RunId, r: RunId, now: int)
    requires r in Pinned(runs, p, now) && Pinned(runs, p, now)[r].isBaseline
    ensures r in runs
    ensures p in runs && p != r ==>
        runs[r].isBaseline && (runs[r].tenant != runs[p].tenant || runs[r].agent != runs[p].agent)
    ensures p !in runs ==> runs[r].isBaseline
  {
  }

  lemma SinglePinStep(s: State, step: Step)
    requires Inv(s) && Enabled(s, step)
    ensures SinglePin(Apply(s, step).runs)
  {
    var t := Apply(s, step).runs;
    forall q, r | q in t && r in t && t[q].isBaseline && t[r].isBaseline
                  && t[q].tenant == t[r].tenant && t[q].agent == t[r].agent
      ensures q == r
    {
      if step.PinCommit? {
        PinningUnpinsOthers(s.runs, s.pins[step.p], q, s.now);
        PinningUnpinsOthers(s.runs, s.pins[step.p], r, s.now);
      } else {
        PinsOnlyByPinning(s, step, q);
        PinsOnlyByPinning(s, step, r);
      }
      StepKeepsRank(s, step, q);
      StepKeepsRank(s, step, r);
    }
  }

  lemma InvStep(s: State, step: Step)
    requires Inv(s) && Enabled(s, step)
    ensures Inv(Apply(s, step))
  {
    TableInvStep(s, step);
    LockInvStep(s, step);
    WorkerInvStep(s, step);
    RequestInvStep(s, step);
    SinglePinStep(s, step);
  }
}
