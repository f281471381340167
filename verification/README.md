# Crucible: verified models of its protocols and algorithms

Crucible evaluates AI agents. An API request creates a run, a Celery worker claims it and executes a
graph of five nodes, heartbeats and a sweeper watch the worker, users cancel, pin and delete runs, and
browsers follow a run's event stream. All of them act on one database row and one Redis list per run.
This project models that machinery in Dafny and proves what it keeps in every interleaving, together
with the algorithms around it. `dafny verify dfyconfig.toml` checks everything.

How it is laid out:

- **Run lifecycle.** `RunTable` holds the row and every SQL statement, each as a function on the table
  and as a method of `Database` that changes the table in place and is proved to compute it.
  `RunLifecycle` is the transition system: one step is one statement, one transaction or one local
  decision of any number of creators, workers, sweepers, cancellers and admins. `RunSafety` proves its
  inductive invariant, `RunTheorems`, `Heartbeats` and `Baseline` what follows for whole executions,
  `RunColumns` what each step does to each column of a row, `RunPaths` what undisturbed actors achieve,
  and `RunEndings` which endings are final.
- **Event stream.** `ReplayBuffer` is the Redis list, `EventStream` the publisher's two steps (publish,
  store) interleaved with each reader's two (replay read, subscribe).
- **Evaluation.** `EvaluationState` and `EvaluationGraph` are the graph with its reducers and budget
  routing, `WorkerLoop` the worker's imperative loop over it, `TracePipeline` and `Persistence` the way
  from scenarios to Judgment rows. `RunResults` composes them, and `WorkerRefinement` shows the loop to
  be a worker of the run lifecycle.
- **Counters with expiry.** `RedisCounter`, and on it `RateLimiter` and `CircuitBreaker`, with explicit
  time in milliseconds and INCR and EXPIRE as separate steps.
- **Algorithms.** `Vectors` and `Drift` (cosine drift, over reals), `Slug`, `TraceStore` (prefix
  deletion page by page) and `Evolution` (the failures forwarded).

Ids are numbers and stand for UUIDs that are never drawn twice. Calls to the LLM, S3, Qdrant, HTTP
targets and Celery are outcomes chosen freely: a value or the exception raised.

What turned out not to hold, stated as a lemma with the exact condition where there is one:

- A run whose worker dies before its first beat is never swept: no code sets `started_at`, so the
  sweeper's second statement selects nothing (`NeverBeatenNeverSwept`), against its comment at
  `src/backend/worker/beat.py:39`.
- No terminal status is final by itself. `StatusIsFinalIff` says exactly when one is: a failed run can
  leave `failed` if and only if a cancel request read it before it failed, and its stale worker may then
  complete it (`SweptRunIsCompleted`); `completed` and `cancelled` have conditions of their own.
- Two pin requests for one agent leave one pin if and only if they do not overlap (`OnePinIffSerial`),
  against "ensuring only one baseline exists" at `src/backend/api/routes/evaluation.py:303-305`.
- What a worker has accumulated when it stops can be committed if and only if it stopped before judging or
  at most one trace upload failed (`CanBeSavedWheneverItStopsIff`): judged traces without a key are joined
  to one row and break the unique constraint.
- A run whose cancellation the worker notices ends with the event `failed`, and with no terminal event at
  all if its row was deleted too (`ExecuteRun`); an unnoticed cancellation ends with `completed`.
- The worker's running cost is the graph's total if and only if everything but the last reported cost
  was zero (`AccumulatedCostAgreesIff`).
- After a reconnection a client has every event published so far if and only if all it had missed was in the
  replay list when that was read (stored in time, neither expired nor trimmed) and nothing was published
  between the read and the subscription (`ReconnectionIsCompleteIff`). Of the stored events a replay gives
  all if and only if at most 200 were missed (`ReplayIsCompleteIff`).
- The breaker's window can be extended if and only if an EXPIRE is outstanding (`ExpiryMovesIff`), which
  takes two interactions at once (`StaleExpireIff`). A lost EXPIRE can leave the breaker open for good,
  and exactly when is `ClosesAgainIff`. The comment "60 seconds of no new failures"
  (`src/backend/connectors/target_agent.py:61`) describes something else, the window is fixed by its
  first failure.
- The limiter calls itself a sliding window (`src/backend/core/rate_limit.py:58`) and is a fixed one: the
  bound for any interval is twice the limit, which is reached (`TwiceTheLimitIsReached`); once the limit
  holds where the key is not reborn (`OnceTheLimitWithoutRebirth`). A lost EXPIRE at the limit blocks the
  key for good, and nothing else does (`RecoversIff`).
- "Worst issues" (`src/backend/agents/evolution.py:37`) are the first five that did not pass: the judge
  writes no `overall_score` (`JudgeOutputForwardsTheFirstFive`). A judgment that passed is never forwarded,
  although the filter is for "failed or low-score" ones (`src/backend/agents/evolution.py:24-28`) and its
  score may be below 80 (`PassedIsNeverForwarded`). What is forwarded is the worst by the judge's scores,
  whatever they are, if and only if at most five judgments did not pass and either all judgments passed or
  none did (`WorstForAllScoresIff`).
- The run row lists its statuses as a progression; the cancel, heartbeat and enqueue-failure writes do
  not test the status, and `cancelled` may become `completed` or `failed`. Only the rank is monotone.
- A trace selected for orphan clean-up can belong to a run that still gains Judgment rows, if and only if
  its worker is in its event loop or about to save (`OrphanGainsJudgmentsIff`), against the safety note at
  `src/backend/worker/beat.py:64-65`.

## Model

| member | source | states |
|---|---|---|
| RunTable.Database.CountActive | src/backend/api/routes/evaluation.py:55-59 | the scan counts exactly the tenant's pending and running runs |
| RunTable.Database.CreateRun | src/backend/api/routes/evaluation.py:55-75 | a run is created if and only if the tenant has fewer than two active ones; the table gains that row and nothing else changes |
| RunTable.Database.Claim | src/backend/worker/tasks.py:38-48 | the conditional claim affects one row if the run is pending and none otherwise |
| RunTable.Database.WriteTerminal | src/backend/worker/tasks.py:207-222 | the terminal write applies from running or cancelled only; a row count of zero means nothing changed |
| RunTable.Database.Cancel | src/backend/api/routes/evaluation.py:134-159 | when each of 200, 400 and 404 is answered, and that only 200 changes the table |
| RunTable.Database.SweepZombies | src/backend/worker/beat.py:24-56 | both update statements together fail exactly the stale running rows, with SQL NULL comparison, and report how many |
| RunTable.Database.SetGoldenBaseline | src/backend/api/routes/evaluation.py:296-347 | when a pin request answers 200, 400 and 404; on 200 this run is pinned, every other run of its tenant and agent is not, and every other row is exactly what it was |
| RunTable.Database.SelectOrphans | src/backend/worker/beat.py:72-83 | at most ten rows, all failed or cancelled, without results and untouched for an hour, and every such row if there are fewer than ten |
| RunTable.CountPassedAppend | src/backend/worker/tasks.py:306-315 | passed counts of two batches add up, which the SQL increments rely on |
| RunLifecycle.StepKeepsRank | src/backend/worker/tasks.py:205-222 | no step of any actor lowers the rank of a status or returns it to pending; tenant, agent and saved results stay |
| RunSafety.ActiveGrowth | src/backend/api/routes/evaluation.py:66-75 | only an insertion adds an active run, and it adds one to one tenant |
| RunSafety.LockInvStep | src/backend/api/routes/evaluation.py:50-75 | the lock invariant is inductive, aborted requests included: the holder's observed count bounds the tenant's active runs until its insert commits |
| RunSafety.TableInvStep | src/backend/worker/tasks.py:311-324 | total, passed and failed agree with the Judgment rows after every step, and completed, pinned or scored runs have their results |
| RunSafety.WorkerInvStep | src/backend/worker/tasks.py:205-222 | every step keeps one worker per run and each worker's phase in agreement with its row |
| RunSafety.RequestInvStep | src/backend/worker/tasks.py:225-243 | requests past their read (pins, beats, cancels) stay consistent with the row they will write |
| RunSafety.SinglePinStep | src/backend/api/routes/evaluation.py:328-344 | with each pinning transaction atomic, at most one run per tenant and agent is pinned after any step |
| RunSafety.InvStep | src/backend/worker/tasks.py:36-222 | the whole invariant is preserved by every step of every actor |
| RunColumns.KeysAfter | src/backend/api/routes/evaluation.py:66-75 | the rows after any step: only an insertion adds one, only a deletion removes one |
| RunColumns.StatusAfter | src/backend/worker/tasks.py:205-222 | the status of every row after any step, by actor: what each of the six kinds of status write leaves, and nothing else |
| RunColumns.PinAfter | src/backend/api/routes/evaluation.py:328-341 | the pin of every row after any step: set for the run pinned, lost by the other pinned runs of its tenant and agent, kept by all others |
| RunColumns.BeatAfter | src/backend/worker/tasks.py:234-239 | the last beat of every row after any step |
| RunColumns.ResultsAfter | src/backend/worker/tasks.py:306-324 | counters, judgments, average and embedding model of every row after any step: only the saving transaction of its worker changes them, by exactly the rows it saves |
| RunColumns.StampsAfter | src/backend/worker/beat.py:72-77 | `updated_at` is the time of the last step that wrote the row; tenant, agent and creation never change |
| RunTheorems.InvAlways | src/backend/worker/tasks.py:36-222 | the invariant holds in every state of every execution |
| RunTheorems.ConcurrencyLimit | src/backend/api/routes/evaluation.py:50-64 | in every execution no tenant ever has more than two pending or running runs |
| RunColumns.LocksHaveHolders | src/backend/api/routes/evaluation.py:50-75 | in every execution each lock that is taken is held by a create request in its critical section, so none is left behind |
| RunPaths.LocksAreShared | src/backend/api/routes/evaluation.py:52 | two tenants share a lock if and only if their ids are equal modulo 2**61 - 1 |
| RunTheorems.RankNeverFalls | src/backend/api/routes/evaluation.py:153-157 | over a whole execution a run's rank never falls and pending is never re-entered, unguarded writes included |
| RunColumns.PinsAreLostOnlyToTheirAgent | src/backend/api/routes/evaluation.py:328-341 | over executions: a run that survives loses its pin only to another run of its own tenant and agent, which then has it |
| RunColumns.CancelledOnlyByUsers | src/backend/worker/tasks.py:121-133 | over executions: a run is cancelled, and its worker takes notice of a cancellation, only after a user's request for it was written |
| RunColumns.EndedRunsStopBeating | src/backend/worker/tasks.py:234-239 | over executions: once a run has ended and no beat is on its way, its last beat never changes again |
| RunTheorems.ClaimedAtMostOnce | src/backend/worker/tasks.py:36-48 | of all deliveries of a run's message in an execution, at most one wins the claim |
| RunTheorems.WorkersClaimed | src/backend/worker/tasks.py:44-48 | a worker executes a run only after winning its claim earlier in the execution |
| RunTheorems.GraphRunsAtMostOnce | src/backend/worker/tasks.py:36-48 | two workers never have the same run, at any two points of an execution |
| RunTheorems.CompletedRunsHaveResults | src/backend/worker/tasks.py:154-160 | counters equal the Judgment rows in every reachable state, and a completed run was saved earlier |
| RunTheorems.SavingSaves | src/backend/worker/tasks.py:155-160 | the saving transaction finds the run unsaved and leaves it saved with the new rows added |
| RunTheorems.ResultsSavedAtMostOnce | src/backend/worker/tasks.py:155-160 | a run's results are committed at most once in an execution |
| RunEndings.OrphansHaveNoJudgments | src/backend/worker/beat.py:64-78 | the orphan query never selects a run that has a Judgment row at that moment |
| RunColumns.FreshEndingsAreNotOrphans | src/backend/worker/beat.py:69-79 | over executions: no run is selected within the hour after its status was written |
| RunEndings.OrphansStayEmpty | src/backend/worker/beat.py:72-97 | while no worker can still save the run, a selected orphan stays without judgments in every later state |
| RunEndings.OrphanGainsJudgmentsIff | src/backend/worker/beat.py:72-97 | some continuation gives a selected orphan Judgment rows if and only if a worker is in its loop or about to save |
| RunEndings.OrphanCanBeSaved | src/backend/worker/beat.py:72-97 | a state in which that is so is reached from the empty system |
| RunEndings.FailedIsStableIffNoStaleCancel | src/backend/api/routes/evaluation.py:153-157 | every step keeps a failed run failed if and only if no cancel request read it before it failed |
| RunEndings.CompletedIsStableIff | src/backend/api/routes/evaluation.py:84-88 | every step keeps a completed run completed if and only if no such cancel request and no enqueue failure is to come |
| RunEndings.CancelledIsStableIff | src/backend/worker/tasks.py:205-222 | every step keeps a cancelled run cancelled if and only if no worker is about to write another status and no enqueue failure is to come; the guarded terminal write is what can change it |
| RunEndings.StatusIsFinalIff | src/backend/worker/tasks.py:205-217 | over all continuations: a status is final if and only if the run has ended and nobody is left who can write it |
| RunEndings.SettledForever | src/backend/worker/tasks.py:205-220 | over executions: such a run keeps its status in every later state |
| RunEndings.FailedForever | src/backend/worker/tasks.py:205-220 | a run that fails with no cancel in flight is failed in every later state |
| RunEndings.SweptRunIsCompleted | src/backend/worker/tasks.py:205-222 | from the empty system a run is swept, then cancelled by a stale request, then completed by its stale worker |
| RunPaths.UndisturbedCreate | src/backend/api/routes/evaluation.py:50-91 | with a free lock and room, a request ends with exactly one new row and the lock free |
| RunPaths.NewRunTakesASlot | src/backend/api/routes/evaluation.py:67-75 | the new run is pending, without results, and takes one slot of its own tenant only |
| RunPaths.UndisturbedRefusal | src/backend/api/routes/evaluation.py:60-64 | at the limit the request is refused and leaves the state as it was |
| RunPaths.UndisturbedAbort | src/backend/api/routes/evaluation.py:50-91 | a request aborted after it has counted under the lock leaves the state as it was |
| RunPaths.UndisturbedDelivery | src/backend/worker/tasks.py:36-48 | a delivery starts the run if it is pending and does nothing otherwise, whatever has become of the run |
| RunPaths.UndisturbedCancel | src/backend/api/routes/evaluation.py:134-159 | a cancel request gets past its check if and only if the run is pending or running, and undisturbed cancels this run only |
| RunPaths.UndisturbedPin | src/backend/api/routes/evaluation.py:306-344 | a pin request gets past its checks if and only if the run is completed with an average of at least 70, and undisturbed moves its agent's pin to it and changes no other row |
| RunPaths.UndisturbedBeat | src/backend/worker/tasks.py:231-239 | a beat is started if and only if the run is running; undisturbed it stamps this run, with some time between its read and its write, and nothing else |
| RunPaths.AnExceptionEndsTheRun | src/backend/worker/tasks.py:170-222 | an exception anywhere before its end takes a worker to its terminal write: cancelled if it had noticed a cancellation, else failed |
| RunTheorems.DeliveriesAfterPendingAreIgnored | src/backend/worker/tasks.py:36-46 | once a run was claimed, cancelled, failed to enqueue or deleted, every later delivery of its message changes nothing |
| RunTheorems.LaterDeliveriesAreIgnored | src/backend/worker/tasks.py:38-48 | the winning delivery starts the worker, and no later one has any effect |
| RunPaths.UndisturbedExecution | src/backend/worker/tasks.py:154-223 | from its loop a worker ends a run with exactly the results it saved: completed, or cancelled if it noticed |
| Heartbeats.SweepFailsExactlyTheSilent | src/backend/worker/beat.py:26-52 | in a reachable state a sweep changes a row if and only if it is running and its last beat is older than the cutoff |
| Heartbeats.RecordedBeatsHappened | src/backend/worker/tasks.py:237-239 | the beat recorded in a row was written by an earlier step |
| Heartbeats.BeatsTouchNothingElse | src/backend/worker/tasks.py:234-239 | a beat, however late, leaves status, results, pin and other rows alone, never goes back, and protects the run |
| Heartbeats.NeverBeatenNeverSwept | src/backend/worker/beat.py:39-52 | a run without a beat is untouched by every sweep |
| Heartbeats.RecentBeatProtects | src/backend/worker/beat.py:21-31 | a beat at most 300 s old protects its run from a sweep |
| Heartbeats.RegularBeatsAreNeverSwept | src/backend/worker/tasks.py:225-241 | a run that has beaten and whose beats are at most 300 s apart is never swept |
| Heartbeats.SilentRunIsSwept | src/backend/worker/beat.py:26-37 | a sweep with a cutoff past the last beat fails the running run |
| Heartbeats.NineLostBeatsAreSafe | src/backend/core/config.py:70-71 | in an execution with beats due every 30 s, a sweep fails the run if and only if the last ten due were lost |
| Baseline.ResolveBaseline | src/backend/agents/analyzer.py:71-109 | newest pinned run, else oldest with score at least 80 and another id, none if embedded with another model |
| Baseline.NeverItsOwnBaseline | src/backend/agents/analyzer.py:75-106 | in every reachable state, a run under analysis is not resolved as its own baseline, though the pinned query does not exclude it |
| Baseline.CandidatesAreNeverRejected | src/backend/agents/analyzer.py:104-108 | the answer is none if and only if there is no candidate: the model check never rejects one |
| Baseline.PinnedAnswerIsUnique | src/backend/agents/analyzer.py:75-86 | with a pinned run the answer is that run, whatever the row order |
| Baseline.PinnedAfterOps | src/backend/api/routes/evaluation.py:328-341 | which runs are pinned after any sequence of clear and set statements |
| Baseline.OnePinIffSerial | src/backend/api/routes/evaluation.py:328-344 | two pin requests leave exactly one of their runs pinned if and only if they do not overlap |
| ReplayBuffer.BufferIsTheTail | src/backend/core/events.py:39-47 | after any history of stores the list is the last min(n, 200) events |
| ReplayBuffer.ReplayIsCompleteIff | src/backend/core/events.py:52-70 | reading back gives the newest 200 missed events, all of them if and only if at most 200 were missed |
| ReplayBuffer.NewerEvents | src/backend/core/events.py:61-70 | on numbered events the JSON filter selects by number and keeps order |
| ReplayBuffer.StoredEvents | src/backend/core/events.py:43-47 | storing an event stores its number: the list of messages and the list of numbers agree |
| ReplayBuffer.NewerMembers | src/backend/core/events.py:61-69 | a stored message is read back if and only if it parses and its number, 0 if it has none, is above the one asked for |
| ReplayBuffer.RedisEventPublisher.StoreForReplay | src/backend/core/events.py:39-50 | push and trim keep the last 200; an unreachable Redis leaves the list as it was |
| ReplayBuffer.RedisEventPublisher.GetReplayEvents | src/backend/core/events.py:52-73 | the loop returns exactly the newer events that parse, in order, and nothing if one makes the test raise |
| EventStream.InvAlways | src/backend/core/events.py:97-101 | numbers shown and on their way to a client are increasing and already published; lastSeq is the last shown |
| EventStream.ShownInOrderOnce | src/frontend/src/components/LogViewer.tsx:43-56 | over any interleaving and any reconnections, the numbers shown to one client strictly increase |
| EventStream.SubscribedGetsEverything | src/backend/api/routes/evaluation.py:271-280 | a client that stays subscribed gets every delivered event, in order |
| EventStream.UnsubscribedGetsNothing | src/backend/api/routes/evaluation.py:254-267 | between its replay read and its subscription a client is sent nothing new |
| EventStream.ReconnectionSendsMissedSuffix | src/backend/api/routes/evaluation.py:253-280 | a reconnection sends the newest 200 missed stored events in order; nothing published before the subscription follows |
| EventStream.StoredIsWhatWasPublished | src/backend/core/events.py:97-101 | along any path the list gains exactly the numbers published without an error and then stored, since it last expired; one whose publication raised is never stored |
| EventStream.PublishedIsReplayable | src/backend/core/events.py:97-101 | undisturbed, an event published without an error is the newest in the list; after a publication that raised no store is possible |
| EventStream.ExpiryBeforeTheStore | src/backend/core/events.py:44-47 | the list may expire between an event's publication and its store, and then holds that event alone |
| EventStream.DroppedClientsComeBack | src/frontend/src/components/LogViewer.tsx:39-53 | a viewer may drop at any point; connecting again it asks for what follows the last event it was shown |
| EventStream.ConnectingClients | src/backend/api/routes/evaluation.py:253-267 | a viewer that has been shown something reads the list before it subscribes; one that has not subscribes at once |
| EventStream.FailedReplaySendsNothing | src/backend/core/events.py:71-73 | if the list cannot be read, the client subscribes with nothing but what it had been shown |
| EventStream.ReconnectionIsCompleteIff | src/backend/core/events.py:97-101 | of all events published, the client has every one if and only if all missed ones were in the list at the read and none was published before the subscription |
| EventStream.SkippedIsLost | src/frontend/src/components/LogViewer.tsx:43-56 | an event passed over is never shown once something newer has been |
| EvaluationGraph.ExecuteIsExecution | src/backend/agents/orchestrator.py:42-81 | what running the graph gives, from any node, state and budget, fits the independent description of an execution |
| EvaluationGraph.GraphWithinBudget | src/backend/agents/orchestrator.py:16-79 | nodes are visited in order, costs add up, and each node but the first is entered within budget |
| EvaluationGraph.GraphStopsOnlyFor | src/backend/agents/orchestrator.py:20-38 | the graph stops early only over budget, without scenarios or without traces, and needs both to go on |
| EvaluationGraph.TurnsAddUp | src/backend/agents/state.py:16-17 | after each node the turns are the sum of the turns reported so far |
| EvaluationGraph.ListsAddUp | src/backend/agents/state.py:19-32 | after each node scenarios, traces, judgments, suggestions and errors are what all the nodes so far returned, end to end |
| EvaluationGraph.AccumulatorKeepsResults | src/backend/worker/tasks.py:135-138 | after every event the overwriting accumulator and the reducers agree on scenarios, traces, judgments, suggestions and drift |
| EvaluationGraph.AccumulatedCostAgreesIff | src/backend/agents/state.py:16-17 | the worker's cost is the last reported one; it equals the total if and only if the earlier costs sum to zero |
| EvaluationGraph.AccumulatorKeepsTheLast | src/backend/worker/tasks.py:138 | the worker's turns and errors are those of the last node that reported any, not the graph's sums |
| WorkerLoop.HandleChunk | src/backend/worker/tasks.py:136-153 | one event's entries are folded in, announced and counted by seq_num until one raises |
| WorkerLoop.EventLoop | src/backend/worker/tasks.py:93-153 | how the loop stops, what it has accumulated, which events it has published and where seq_num stands, for any stream |
| WorkerLoop.FirstStopDecides | src/backend/worker/tasks.py:121-153 | the loop ends at the first chunk whose poll reads a cancellation or raises, or which has an entry that raises, as that chunk says; without one at the end of the stream |
| WorkerLoop.HandledUpToTheStop | src/backend/worker/tasks.py:121-153 | handled are all entries of the chunks before that one, and of it those before the entry that raises |
| WorkerLoop.NamesDiffer | src/backend/worker/tasks.py:136-147 | events name their nodes apart, from each other and from the start and the two ends |
| WorkerLoop.ExecuteRun | src/backend/worker/tasks.py:91-216 | events are numbered 1 to n and name the nodes handled, in order, all but the last running; the terminal event, the status written and saving for every cancel and exception point |
| WorkerLoop.SavedResultsAreTheGraphs | src/backend/worker/tasks.py:121-160 | on the graph's stream the worker saves what the graph computed, and publishes at most seven events |
| WorkerRefinement.BodyIsALifecycle | src/backend/worker/tasks.py:91-223 | for every script the worker's body is a legal sequence of lifecycle steps that ends with the status and results its specification gives |
| WorkerRefinement.InterleavedBody | src/backend/worker/tasks.py:91-223 | with any steps of any other actors in between, the body still brings the worker to that verdict and the row, if it is left, to those results |
| TracePipeline.SimulateTurns | src/backend/agents/simulator.py:39-78 | the shape of every interaction log, which ends in the agent's reply or an error |
| TracePipeline.SentStopsAtTheFirstEnd | src/backend/agents/simulator.py:46-78 | between one and five interactions are sent, up to the first that ends the simulation |
| TracePipeline.TraceKeyInjective | src/backend/connectors/s3.py:58 | the storage key determines the trace id |
| TracePipeline.SimulateNode | src/backend/agents/simulator.py:172-200 | the gathered results are sorted into traces and errors in scenario order |
| TracePipeline.OneTraceOrOneError | src/backend/agents/simulator.py:172-185 | a scenario has a trace if and only if it did not crash, never two; traces and errors together are as many as scenarios |
| TracePipeline.TraceMetadata | src/backend/agents/simulator.py:80-108 | a simulated scenario has its own ids, and a key and turns if and only if its trace was uploaded |
| TracePipeline.JudgeNode | src/backend/agents/judge.py:108-148 | the node returns the judgments and errors of the unjudged traces, in order, their number as turns, and as cost the sum of what their verdicts cost |
| TracePipeline.UnjudgedInOrder | src/backend/agents/judge.py:115-116 | the filtered traces are those at increasing positions |
| TracePipeline.PositionsAreTheUnjudged | src/backend/agents/judge.py:115-116 | a position is kept if and only if its scenario has no judgment |
| TracePipeline.NothingLeftToJudge | src/backend/agents/judge.py:108-119 | after the node has run, a second visit would judge nothing |
| TracePipeline.AllUnjudgedAtFirst | src/backend/agents/judge.py:115-116 | in a run's only visit to the node that is every trace |
| TracePipeline.OneJudgmentPerTrace | src/backend/agents/judge.py:26-105 | one judgment per trace, for its own scenario and key, within [0, 100], zero and failed when it could not be judged |
| TracePipeline.JudgingOneMore | src/backend/agents/judge.py:130-137 | one more trace adds one judgment at its verdict's cost, or an error at no cost if its scenario is unknown |
| TracePipeline.CostIsTheCharges | src/backend/agents/judge.py:130-137 | the batch's cost is the sum of the verdicts' costs over stored traces of known scenarios; every trace gives a judgment or an error |
| Persistence.PersistFinalState | src/backend/worker/tasks.py:263-320 | the counters are the numbers of judgments, passed and not, that find a trace by key; the average times the number of rows is the sum of their scores; the rows are those of the join |
| Persistence.OneRowPerTrace | src/backend/worker/tasks.py:265-304 | with at most one failed upload, one row per trace under its own id and scenario |
| Persistence.RowsSayTheVerdicts | src/backend/worker/tasks.py:290-309 | with at most one failed upload, each row passed if and only if its trace was stored and its verdict passed, with the verdict's score, and 0 and failed otherwise |
| Persistence.CountersAreTheJudgments | src/backend/worker/tasks.py:306-320 | the rows' passes, failures and total score are those of the judgments that find a trace |
| Persistence.ResultsCanBeSavedIff | src/backend/db/models/judgment.py:50-54 | once every trace was judged, the unique constraint holds if and only if at most one upload failed |
| Persistence.AverageInRange | src/backend/worker/tasks.py:318-320 | any average computed lies in [0, 100] |
| RunResults.NodesWriteTheirOwn | src/backend/agents/simulator.py:191-200 | the simulate and judge nodes write their own list only, at no negative cost |
| RunResults.GraphResults | src/backend/agents/state.py:20-22 | from the judge node on, the graph holds exactly the simulated traces and their judgments |
| RunResults.JudgingCosts | src/backend/agents/orchestrator.py:16-18 | in a whole execution the graph's cost grows at the judge node by exactly the verdicts' costs, and at the simulate node not at all |
| RunResults.SaveResults | src/backend/worker/tasks.py:286-324 | the saving method writes what the lifecycle's saving transaction writes |
| RunResults.SavedRunIsTheGraphs | src/backend/worker/tasks.py:115-160 | the whole chain: the worker's accumulated results give one row per trace, counters that grow by them and an average in range |
| RunResults.CanBeSavedWheneverItStopsIff | src/backend/worker/tasks.py:129-160 | at any stopping point of the event loop the constraint holds if and only if the worker stopped before judging or at most one upload failed |
| RedisCounter.Counter.Incr | src/backend/core/rate_limit.py:94 | INCR on a key with expiry, and its reply |
| RedisCounter.Counter.Expire | src/backend/core/rate_limit.py:98 | EXPIRE, without effect on an absent key |
| RedisCounter.Counter.Ttl | src/backend/core/rate_limit.py:101 | TTL rounded to whole seconds, with its two negative replies |
| RateLimiter.InvAlways | src/backend/core/rate_limit.py:92-111 | counts, windows and log of a key agree in every reachable state, with INCR and EXPIRE apart |
| RateLimiter.TwiceTheLimitPerWindow | src/backend/core/rate_limit.py:89-111 | any interval of window length contains at most twice the limit of admitted requests |
| RateLimiter.TwiceTheLimitIsReached | src/backend/core/rate_limit.py:92-103 | for every limit and window an execution from the start admits exactly twice the limit in one such interval |
| RateLimiter.OnceTheLimitWithoutRebirth | src/backend/core/rate_limit.py:92-103 | an interval in which the key is not reborn admits at most the limit |
| RateLimiter.RequestsNeverExtendTheWindow | src/backend/core/rate_limit.py:94-111 | no request moves a set expiry, and the first after it is admitted |
| RateLimiter.WindowEndIsFixed | src/backend/core/rate_limit.py:96-98 | no step at all moves a set expiry before it is reached |
| RateLimiter.LostExpireBlocksForGood | src/backend/core/rate_limit.py:94-98 | if the EXPIRE is lost and the limit reached, no later request is ever admitted |
| RateLimiter.RecoversIff | src/backend/core/rate_limit.py:94-111 | some continuation admits a request if and only if the key is not stuck in that state |
| RateLimiter.KeysGetStuck | src/backend/core/rate_limit.py:94-98 | that state is reached from the start, for every limit and window |
| RateLimiter.Dispatch | src/backend/core/rate_limit.py:92-122 | one request: admitted if and only if below the limit; the wait announced is positive and within half a second of the time left, or the window if that is less |
| CircuitBreaker.FailuresAreBounded | src/backend/connectors/target_agent.py:57-80 | with K interactions at once the count stays at or below threshold - 1 + K, once open also with those in flight; none starts while open |
| CircuitBreaker.BoundIsReached | src/backend/connectors/target_agent.py:57-62 | for every K a state with exactly threshold - 1 + K failures is reached from the start |
| CircuitBreaker.ExpiryIsFixed | src/backend/connectors/target_agent.py:57-62 | with no EXPIRE outstanding, later failures never move the end of the window |
| CircuitBreaker.ExpiryMovesIff | src/backend/connectors/target_agent.py:57-70 | a step other than a success can move it if and only if an EXPIRE is outstanding |
| CircuitBreaker.StaleExpireExtends | src/backend/connectors/target_agent.py:57-70 | from the start, with two interactions at once, a stale EXPIRE extends the next window by any delay shorter than it |
| CircuitBreaker.StaleExpireIff | src/backend/connectors/target_agent.py:57-70 | an EXPIRE can be outstanding for a key that has an expiry if and only if two interactions can be under way |
| CircuitBreaker.ClosesAgainIff | src/backend/connectors/target_agent.py:57-80 | the breaker can close again if and only if it is not open without expiry and with nothing in flight |
| CircuitBreaker.BreakersGetStuck | src/backend/connectors/target_agent.py:57-62 | a lost EXPIRE leads there from the start |
| CircuitBreaker.SendInteraction | src/backend/connectors/target_agent.py:131-159 | refused at four failures; a successful status clears the count even if the body is not JSON, 3xx and 4xx leave it, 5xx and network errors raise it by one |
| Vectors.CauchySchwarz | src/backend/agents/analyzer.py:132 | the square of the dot product is at most the product of the squared norms, in any dimension |
| Vectors.EqualityMakesMultiples | src/backend/agents/analyzer.py:132 | equality with a positive product makes one vector a positive multiple of the other |
| Drift.LastOneWins | src/backend/agents/analyzer.py:112 | a scenario has a vector if and only if one was given, and the last one wins |
| Drift.NoTraceIsLost | src/backend/agents/analyzer.py:173-179 | every trace ends up as one vector or one error |
| Drift.EmbeddedScenarios | src/backend/agents/analyzer.py:173-179 | the run has a vector for a scenario if and only if one of its traces was embedded |
| Drift.CollectVectors | src/backend/agents/analyzer.py:163-179 | the loop collects exactly those vectors, messages and costs |
| Drift.TakeAny | src/backend/agents/analyzer.py:126-135 | the sum of similarities does not depend on which scenario is taken first |
| Drift.SumSimilarities | src/backend/agents/analyzer.py:125-133 | the loop computes that sum in whatever order the set is iterated, or finds a shape mismatch |
| Drift.ComputeDriftMath | src/backend/agents/analyzer.py:110-154 | the whole computation equals the order-free definition, and when each of its four outcomes is answered |
| Drift.CosineRange | src/backend/agents/analyzer.py:132 | the similarity of non-zero vectors lies in [-1, 1] and is 1 if and only if they are positive multiples |
| Drift.LawOfCosines | src/backend/agents/analyzer.py:132 | the squared distance of two non-zero vectors is the sum of their squared norms less twice their product times the similarity |
| Drift.DriftRange | src/backend/agents/analyzer.py:135-136 | drift lies in [0, 2] and is 0 if and only if every overlapping vector is a positive multiple of its baseline |
| Drift.ScoreIsTheShortfall | src/backend/agents/analyzer.py:135-136 | the score times the number of overlapping scenarios is that number less the sum of their similarities |
| Drift.BandByMeanSimilarity | src/backend/agents/analyzer.py:138-143 | the three bands are mean similarity above 0.9, above 0.75, and the rest |
| Drift.ZeroVectorSpoilsTheScore | src/backend/agents/analyzer.py:132-143 | one zero vector makes the score not a number and the band significant |
| Slug.NormaliseJoinsWords | src/backend/api/routes/auth.py:88 | the regular expression and the strip keep the words in order with single hyphens between them |
| Slug.WordsOfJoin | src/backend/api/routes/auth.py:88 | splitting a slug gives back the words it was joined from |
| Slug.NormalisedIsSlug | src/backend/api/routes/auth.py:88-90 | the result is empty if and only if the name has no letter or digit, else it has the slug form |
| Slug.UnchangedIffSlug | src/backend/api/routes/auth.py:88 | the normaliser's fixed points are exactly the slugs and the empty string |
| Slug.NormaliseIdempotent | src/backend/api/routes/auth.py:88 | normalising twice is normalising once |
| Slug.OnlySlugWithItsWords | src/backend/api/routes/auth.py:88 | the result is the only slug with the words of the name |
| Slug.CandidatesDiffer | src/backend/api/routes/auth.py:99-100 | no two numbered candidates are equal: decimal suffixes are injective |
| Slug.SomeCandidateIsFree | src/backend/api/routes/auth.py:94-100 | pigeonhole: n candidates all taken need n taken slugs |
| Slug.CandidateWords | src/backend/api/routes/auth.py:88-100 | each candidate has the words of the name, and the numbered ones their number as one more word |
| Slug.AllocateSlug | src/backend/api/routes/auth.py:88-100 | the slug is free and has the words of the company's name, or "tenant" and the hexadecimal digits if it has none, followed by a number unless the first probe was free; at most one probe more than there are taken slugs |
| TraceStore.Bucket.List | src/backend/connectors/s3.py:92-93 | a page is the least keys past the token; truncated if and only if something is left |
| TraceStore.LessIsLexicographic | src/backend/connectors/s3.py:92-93 | the listing order compares keys at their first difference |
| TraceStore.Bucket.DeletePrefix | src/backend/connectors/s3.py:89-100 | no key without the prefix is touched; on success every remaining key with it was uploaded meanwhile or refused |
| TraceStore.PrefixMatchesOnlyItsRun | src/backend/worker/tasks.py:343 | with slash-free ids a run's prefix matches a trace key if and only if tenant and run are equal |
| TraceStore.DeleteRunTraces | src/backend/worker/tasks.py:335-350 | whatever fails, is refused or uploaded meanwhile, other runs keep their traces; otherwise exactly the run's own are gone |
| Evolution.FailedOnesAreTheFailures | src/backend/agents/evolution.py:25-28 | the filter keeps the failed judgments with their multiplicity and nothing else |
| Evolution.SortIsStable | src/backend/agents/evolution.py:38 | the sort is ordered, keeps ties in order and is a permutation |
| Evolution.UnscoredCountAsHundred | src/backend/agents/evolution.py:38 | in the sorted list judgments without a score come after all below 100 and before all above |
| Evolution.StableSortIsUnique | src/backend/agents/evolution.py:38 | any two stable sorts by score give the same list |
| Evolution.WorstFive | src/backend/agents/evolution.py:37-38 | at most five failures, sorted, of each score the earliest, and none left out scores below one kept |
| Evolution.JudgeOutputForwardsTheFirstFive | src/backend/agents/judge.py:84-93 | on the judge's output exactly the first five not passed are forwarded |
| Evolution.PassedIsNeverForwarded | src/backend/agents/evolution.py:24-28 | a judgment that passed is never forwarded, however low its score |
| Evolution.WorstForAllScoresIff | src/backend/agents/evolution.py:24-38 | no failure left out, by the filter's own rule, scores below one forwarded, whatever the scores, if and only if at most five did not pass and either all passed or none did |
| Evolution.SixthFailureIsLeftOut | src/backend/agents/evolution.py:37-38 | six failures with falling scores: the worst is the one left out |
| Evolution.LowScoreIsLeftOut | src/backend/agents/evolution.py:24-28 | a passed judgment with a score of 10 is left out beside a failed one with 60 |

## Left out

- Exceptions between the claim and the start of the event loop (`src/backend/worker/tasks.py:50-112`), and interrupts that are not an `Exception`: such a worker is one that takes no further step, although an interrupt in the loop would reach the terminal write.
- The existence check on the agent (`src/backend/api/routes/evaluation.py:35-44`), `celery_task_id` and `error_message`: columns nothing else reads.
- Overlapping pin requests inside the lifecycle: its pinning transaction is atomic, so the single-pin invariant is about serialised requests. What overlapping ones do is stated apart, in `OnePinIffSerial`.
- Redis and database outages: the limiter and the breaker then fail open and their bounds do not hold. A failed store or replay read is modelled.
- The expiry of the replay list at a given time: it may expire at any moment.
- Baseline.ResolveBaseline: rows with equal `created_at` may come in any order, so the answer is one of several.
- Drift.ComputeDriftMath: exact reals and a norm given as data, so neither floating-point error nor `round(score, 4)` is modelled. The band is decided before rounding, as in the code.
- Slug.AllocateSlug: starts from the lower-cased name (Unicode lower-casing is not modelled); the set of taken slugs does not change during the loop, a concurrent registration fails on the unique column instead.
- TraceStore.Bucket.DeletePrefix: keys are compared character by character; uploads during the deletion are a finite list, one batch before each request.
- TracePipeline.SimulateNode: the node's early returns for missing configuration give an error and no traces and are not modelled; neither are payload texts.
- Persistence.PersistFinalState: the scenario and trace rows are values, not rows of tables of their own; the flush order is not modelled.
- EventStream.ShownInOrderOnce: the viewer's cut to its last 1000 lines and its truncation of long lines are not modelled.
- WorkerLoop.ExecuteRun: an event is its number, status and node; the turns, cost and counters it also carries are not modelled.
- RateLimiter.Dispatch: the choice of tier and of the client's address are parameters.
- The scenario generator, prompts, token counts and prices: opaque outcomes with a non-negative cost.
- Address checks, TLS, JWT, password hashing, tickets, migrations, validation of request bodies and the user interface: no functional property that is not immediate.
