/** The run lifecycle as a transition system. Creators, workers (any number of deliveries of any
    message), heartbeats, the sweeper, cancellers, pinning admins and deletions act on one table; a
    step is one SQL statement or transaction, or one local decision of an actor. A worker that
    crashes, or whose message is never delivered, is one that takes no further step. */
module RunLifecycle {
  import opened Wrappers
  import opened RunTable

  type ActorId = nat

  /** A create request: waiting for the advisory lock, holding it, holding it with the count read,
      or, after the insert committed and released the lock, publishing its Celery message. */
  datatype Creator =
    | Waiting(tenant: TenantId, agent: AgentId)
    | Holding(tenant: TenantId, agent: AgentId)
    | Counted(tenant: TenantId, agent: AgentId, observed: nat)
    | Enqueuing(run: RunId)

  /** A worker that claimed `run`: in the event loop, past it, past the transaction that saves the
      results, in the `finally` block with the status it will write, and done. */
  datatype Worker =
    | Executing(run: RunId)
    | Saving(run: RunId, cancelled: bool)
    | Closing(run: RunId, cancelled: bool)
    | Ending(run: RunId, verdict: Status)
    | Finished(run: RunId)

  datatype State = State(
    now: int,
    runs: Table,
    issued: set<RunId>,                 // every id ever inserted
    locks: map<nat, ActorId>,           // advisory locks and their holders
    creators: map<ActorId, Creator>,
    workers: map<ActorId, Worker>,
    beats: map<ActorId, int>,           // heartbeats past their read, with the time of the read
    cancellers: map<ActorId, RunId>,    // cancel requests past their read
    pins: map<ActorId, RunId>)          // pin requests past their checks

  datatype Step =
    | Tick(delta: nat)
    | BeginCreate(c: ActorId, tenant: TenantId, agent: AgentId)
    | AcquireLock(c: ActorId)
    | Count(c: ActorId)
    | Refuse(c: ActorId)
    | Abort(c: ActorId)
    | Insert(c: ActorId, id: RunId)
    | Enqueued(c: ActorId)
    | EnqueueFailed(c: ActorId)
    | Claim(w: ActorId, id: RunId)
    | LeaveLoop(w: ActorId)
    | NoticeCancel(w: ActorId)
    | Persist(w: ActorId, judgments: seq<bool>, avg: Option<real>)
    | Conclude(w: ActorId)
    | Raise(w: ActorId)
    | TerminalWrite(w: ActorId)
    | BeatRead(w: ActorId)
    | BeatWrite(w: ActorId, at: int)
    | BeatLost(w: ActorId)
    | Sweep(cutoff: int)
    | CancelRead(k: ActorId, id: RunId)
    | CancelWrite(k: ActorId)
    | PinRead(p: ActorId, id: RunId)
    | PinCommit(p: ActorId)
    | Delete(id: RunId)

  /** hash(tenant_id.int) % (2**63 - 1); CPython hashes an int modulo 2**61 - 1. Two tenants may
      share a lock, one tenant never has two. */
  function LockId(tenant: TenantId): nat {
    (tenant % 0x1FFF_FFFF_FFFF_FFFF) % 0x7FFF_FFFF_FFFF_FFFF
  }

  ghost predicate Init(s: State) {
    s.runs == map[] && s.issued == {} && s.locks == map[] && s.creators == map[] && s.workers == map[] &&
    s.beats == map[] && s.cancellers == map[] && s.pins == map[]
  }

  predicate Holds(s: State, c: ActorId) {
    && c in s.creators && (s.creators[c].Holding? || s.creators[c].Counted?)
  }

  predicate Enabled(s: State, step: Step) {
    match step
    case Tick(_) => true
    case BeginCreate(c, _, _) => c !in s.creators
    case AcquireLock(c) => c in s.creators && s.creators[c].Waiting? && LockId(s.creators[c].tenant) !in s.locks
    case Count(c) => c in s.creators && s.creators[c].Holding?
    case Refuse(c) => c in s.creators && s.creators[c].Counted? && s.creators[c].observed >= MAX_ACTIVE_RUNS
    case Abort(c) => c in s.creators && !s.creators[c].Enqueuing?
    case Insert(c, id) =>
      c in s.creators && s.creators[c].Counted? && s.creators[c].observed < MAX_ACTIVE_RUNS && id !in s.issued
    case Enqueued(c) => c in s.creators && s.creators[c].Enqueuing?
    case EnqueueFailed(c) => c in s.creators && s.creators[c].Enqueuing?
    case Claim(w, id) => w !in s.workers
    case LeaveLoop(w) => w in s.workers && s.workers[w].Executing?
    case NoticeCancel(w) =>
      w in s.workers && s.workers[w].Executing? &&
      s.workers[w].run in s.runs && s.runs[s.workers[w].run].status == Cancelled
    case Persist(w, _, _) => w in s.workers && s.workers[w].Saving?
    case Conclude(w) => w in s.workers && s.workers[w].Closing? && !s.workers[w].cancelled
    case Raise(w) => w in s.workers && (s.workers[w].Executing? || s.workers[w].Saving? || s.workers[w].Closing?)
    case TerminalWrite(w) => w in s.workers && s.workers[w].Ending?
    case BeatRead(w) =>
      w in s.workers && !s.workers[w].Finished? && w !in s.beats &&
      s.workers[w].run in s.runs && s.runs[s.workers[w].run].status == Running
    case BeatWrite(w, at) => w in s.beats && w in s.workers && s.beats[w] <= at <= s.now
    case BeatLost(w) => w in s.beats
    case Sweep(cutoff) => cutoff <= s.now - ZOMBIE_TIMEOUT_SECONDS
    case CancelRead(k, id) => k !in s.cancellers && id in s.runs && Rank(s.runs[id].status) < 2
    case CancelWrite(k) => k in s.cancellers
    case PinRead(p, id) => p !in s.pins && id in s.runs && Pinnable(s.runs[id])
    case PinCommit(p) => p in s.pins
    case Delete(id) => id in s.runs
  }

  function Without<V>(m: map<nat, V>, k: nat): map<nat, V> { m - {k} }

  /** What a step does to the table. */
  function TableAfter(s: State, step: Step): Table
    requires Enabled(s, step)
  {
    match step
    case Insert(c, id) => s.runs[id := NewRun(s.creators[c].tenant, s.creators[c].agent, s.now)]
    case EnqueueFailed(c) => Overwritten(s.runs, s.creators[c].run, Failed, s.now)
    case Claim(w, id) => Claimed(s.runs, id, s.now)
    case Persist(w, judgments, avg) => Saved(s.runs, s.workers[w].run, judgments, avg, s.now)
    case TerminalWrite(w) => Terminated(s.runs, s.workers[w].run, s.workers[w].verdict, s.now)
    case BeatWrite(w, at) => Beaten(s.runs, s.workers[w].run, at, s.now)
    case Sweep(cutoff) => Swept(s.runs, cutoff, s.now)
    case CancelWrite(k) => Overwritten(s.runs, s.cancellers[k], Cancelled, s.now)
    case PinCommit(p) => Pinned(s.runs, s.pins[p], s.now)
    case Delete(id) => Without(s.runs, id)
    case _ => s.runs
  }

  /** What it does to the whole state. An aborted request's transaction is rolled back, which frees
      the advisory lock it holds. */
  function Apply(s: State, step: Step): State
    requires Enabled(s, step)
  {
    var table := TableAfter(s, step);
    match step
    case Tick(d) => s.(now := s.now + d)
    case BeginCreate(c, t, a) => s.(creators := s.creators[c := Waiting(t, a)])
    case AcquireLock(c) =>
      var t := s.creators[c].tenant;
      s.(locks := s.locks[LockId(t) := c], creators := s.creators[c := Holding(t, s.creators[c].agent)])
    case Count(c) =>
      var t := s.creators[c].tenant;
      s.(creators := s.creators[c := Counted(t, s.creators[c].agent, |ActiveRuns(s.runs, t)|)])
    case Refuse(c) =>
      s.(locks := Without(s.locks, LockId(s.creators[c].tenant)), creators := Without(s.creators, c))
    case Abort(c) =>
      s.(locks := if Holds(s, c) then Without(s.locks, LockId(s.creators[c].tenant)) else s.locks,
         creators := Without(s.creators, c))
    case Insert(c, id) =>
      s.(runs := table,
         issued := s.issued + {id},
         locks := Without(s.locks, LockId(s.creators[c].tenant)),
         creators := s.creators[c := Enqueuing(id)])
    case Enqueued(c) => s.(creators := Without(s.creators, c))
    case EnqueueFailed(c) => s.(runs := table, creators := Without(s.creators, c))
    case Claim(w, id) =>
      if id in s.runs && s.runs[id].status == Pending
      then s.(runs := table, workers := s.workers[w := Executing(id)])
      else s
    case LeaveLoop(w) => s.(workers := s.workers[w := Saving(s.workers[w].run, false)])
    case NoticeCancel(w) => s.(workers := s.workers[w := Saving(s.workers[w].run, true)])
    case Persist(w, _, _) =>
      s.(runs := table, workers := s.workers[w := Closing(s.workers[w].run, s.workers[w].cancelled)])
    case Conclude(w) => s.(workers := s.workers[w := Ending(s.workers[w].run, Completed)])
    case Raise(w) =>
      var cancelled := !s.workers[w].Executing? && s.workers[w].cancelled;
      s.(workers := s.workers[w := Ending(s.workers[w].run, if cancelled then Cancelled else Failed)])
    case TerminalWrite(w) => s.(runs := table, workers := s.workers[w := Finished(s.workers[w].run)])
    case BeatRead(w) => s.(beats := s.beats[w := s.now])
    case BeatWrite(w, _) => s.(runs := table, beats := Without(s.beats, w))
    case BeatLost(w) => s.(beats := Without(s.beats, w))
    case Sweep(_) => s.(runs := table)
    case CancelRead(k, id) => s.(cancellers := s.cancellers[k := id])
    case CancelWrite(k) => s.(runs := table, cancellers := Without(s.cancellers, k))
    case PinRead(p, id) => s.(pins := s.pins[p := id])
    case PinCommit(p) => s.(runs := table, pins := Without(s.pins, p))
    case Delete(_) => s.(runs := table)
  }

  /** The i-th step of a history is one the system allows in its i-th state. */
  ghost predicate StepAt(states: seq<State>, steps: seq<Step>, i: int) {
    && 0 <= i < |steps| && i + 1 < |states|
    && Enabled(states[i], steps[i])
    && states[i + 1] == Apply(states[i], steps[i])
  }

  /** A finite execution from the empty system: any steps of any actors in any order. */
  ghost predicate Execution(states: seq<State>, steps: seq<Step>) {
    && |states| == |steps| + 1
    && Init(states[0])
    && forall i :: 0 <= i < |steps| ==> StepAt(states, steps, i)
  }

  // ---------------------------------------------------------------- invariant

  /** The results of a run are in the table; only the saving transaction sets this column. */
  predicate ResultsSaved(run: Run) { run.embeddingVersion == Some(EMBEDDING_MODEL) }

  predicate RowOk(run: Run, now: int) {
    && run.startedAt == None
    && run.total == run.passed + run.failed == |run.judgments|
    && run.passed == CountPassed(run.judgments)
    && (run.embeddingVersion == None || ResultsSaved(run))
    && (run.avgScore.Some? || run.isBaseline || run.judgments != [] || run.status == Completed ==> ResultsSaved(run))
    && (run.heartbeatAt.Some? ==> run.heartbeatAt.value <= now)
  }

  ghost predicate TableInv(s: State) {
    && s.runs.Keys <= s.issued
    && forall r :: r in s.runs ==> RowOk(s.runs[r], s.now)
  }

  /** Whoever is past acquiring has the lock of its tenant, and every lock taken has such a holder. */
  ghost predicate LocksAreHeld(s: State) {
    && (forall l :: l in s.locks ==> Holds(s, s.locks[l]) && LockId(s.creators[s.locks[l]].tenant) == l)
    && (forall c :: Holds(s, c) ==>
        LockId(s.creators[c].tenant) in s.locks && s.locks[LockId(s.creators[c].tenant)] == c)
  }

  /** The lock holder's count bounds the tenant's active runs until its insert commits. */
  ghost predicate LockInv(s: State) {
    && LocksAreHeld(s)
    && (forall c :: c in s.creators && s.creators[c].Counted? ==>
          |ActiveRuns(s.runs, s.creators[c].tenant)| <= s.creators[c].observed)
    && (forall t: TenantId :: |ActiveRuns(s.runs, t)| <= MAX_ACTIVE_RUNS)
  }

  /** What the table says about the run of a worker in each phase. */
  predicate WorkerOk(s: State, worker: Worker) {
    && worker.run in s.issued
    && (worker.run in s.runs ==>
          var run := s.runs[worker.run];
          && run.status != Pending
          && (worker.Executing? || worker.Saving? ==> !ResultsSaved(run))
          && (worker.Closing? || (worker.Ending? && worker.verdict == Completed) ==> ResultsSaved(run)))
    && (worker.Ending? ==> Rank(worker.verdict) == 2)
  }

  ghost predicate WorkerInv(s: State) {
    && (forall w :: w in s.workers ==> WorkerOk(s, s.workers[w]))
    && (forall w, v :: w in s.workers && v in s.workers && w != v ==> s.workers[w].run != s.workers[v].run)
    && (forall r :: r in s.runs && s.runs[r].status == Pending ==> !ResultsSaved(s.runs[r]))
  }

  /** The run of a pin request past its checks has its results saved, if it still exists. */
  predicate PinOk(s: State, r: RunId) {
    r in s.issued && (r in s.runs ==> ResultsSaved(s.runs[r]))
  }

  /** A heartbeat past its read at `readAt` is newer than the beat recorded in the row. */
  predicate BeatOk(s: State, r: RunId, readAt: int) {
    && readAt <= s.now
    && (r in s.runs && s.runs[r].heartbeatAt.Some? ==> s.runs[r].heartbeatAt.value <= readAt)
  }

  ghost predicate RequestInv(s: State) {
    && (forall p :: p in s.pins ==> PinOk(s, s.pins[p]))
    && (forall w :: w in s.beats ==> w in s.workers && BeatOk(s, s.workers[w].run, s.beats[w]))
    && (forall c :: c in s.creators && s.creators[c].Enqueuing? ==> s.creators[c].run in s.issued)
    && (forall k :: k in s.cancellers ==> s.cancellers[k] in s.issued)
  }

  ghost predicate SinglePin(runs: Table) {
    forall q, r :: (q in runs && r in runs && runs[q].isBaseline && runs[r].isBaseline
                    && runs[q].tenant == runs[r].tenant && runs[q].agent == runs[r].agent) ==> q == r
  }

  ghost predicate Inv(s: State) {
    TableInv(s) && LockInv(s) && WorkerInv(s) && RequestInv(s) && SinglePin(s.runs)
  }

  // ---------------------------------------------------------------- one step

  /** What any step may do to a row that survives it. */
  predicate RowStep(old_: Run, new_: Run) {
    && new_.tenant == old_.tenant && new_.agent == old_.agent && new_.createdAt == old_.createdAt
    && Rank(old_.status) <= Rank(new_.status)
    && (new_.status == Pending ==> old_.status == Pending)
    && (new_.embeddingVersion == old_.embeddingVersion || ResultsSaved(new_))
  }

  lemma AppliesTable(s: State, step: Step)
    requires Enabled(s, step)
    ensures Apply(s, step).runs == TableAfter(s, step)
    ensures Apply(s, step).issued == s.issued + (if step.Insert? then {step.id} else {})
    ensures s.now <= Apply(s, step).now
  {
  }

  lemma TableKeepsRank(s: State, step: Step, r: RunId)
    requires Enabled(s, step) && r in s.runs && r in TableAfter(s, step)
    requires step.Insert? ==> step.id != r
    requires step.TerminalWrite? ==> Rank(s.workers[step.w].verdict) == 2
    ensures RowStep(s.runs[r], TableAfter(s, step)[r])
  {
  }

  /** No step returns a status to pending and the rank of a status never falls. */
  lemma StepKeepsRank(s: State, step: Step, r: RunId)
    requires s.runs.Keys <= s.issued && WorkerInv(s) && Enabled(s, step)
    requires r in s.runs && r in Apply(s, step).runs
    ensures RowStep(s.runs[r], Apply(s, step).runs[r])
  {
    AppliesTable(s, step);
    if step.TerminalWrite? {
      assert WorkerOk(s, s.workers[step.w]);
    }
    TableKeepsRank(s, step, r);
  }

  /** Rows appear by insertion only, under an id never used before. */
  lemma StepKeepsIds(s: State, step: Step)
    requires Enabled(s, step)
    ensures var s' := Apply(s, step);
      && s'.runs.Keys <= s.runs.Keys + (if step.Insert? then {step.id} else {})
      && s'.issued == s.issued + (if step.Insert? then {step.id} else {})
      && s.now <= s'.now
  {
    AppliesTable(s, step);
    TableIds(s, step);
  }

  lemma TableIds(s: State, step: Step)
    requires Enabled(s, step)
    ensures TableAfter(s, step).Keys <= s.runs.Keys + (if step.Insert? then {step.id} else {})
  {
  }
}
