/** The worker's main body after it has claimed a run: the event loop over the graph's updates with
    its throttled cancellation poll, saving, the terminal event and the status it will write. Every
    foreign call is an outcome in the script: a value, or the exception it raises. */
module WorkerLoop {
  import opened Wrappers
  import opened RunTable
  import opened EvaluationState
  import opened EvaluationGraph

  /** The poll before an event is handled: not due yet, the status read (None if the row is gone),
      or a database error. */
  datatype Poll = NotDue | Due(status: Option<RunTable.Status>) | PollRaises

  /** One entry of an event's dictionary; handling it may raise. */
  datatype Item = Item(node: Node, update: Update) | Raises

  datatype Chunk = Chunk(poll: Poll, items: seq<Item>)

  /** What happens to one run: the graph's events, whether the stream raises when they are used up,
      whether the row still exists when it is reloaded, whether saving raises. */
  datatype Script = Script(chunks: seq<Chunk>, streamRaises: bool, rowGone: bool, saveRaises: bool)

  datatype EventStatus = EvRunning | EvCompleted | EvFailed

  /** An event handed to the bus; the bus swallows transport errors, so this is an attempt. */
  datatype Attempt = Attempt(seqNum: nat, status: EventStatus, node: string)

  datatype Outcome = Outcome(
    attempts: seq<Attempt>,
    state: State,
    cancelled: bool,
    fatal: bool,
    saved: bool,
    verdict: RunTable.Status)

  // ---------------------------------------------------------------- what the loop handles

  datatype Stop = UsedUp | Cancel | Error

  /** The updates handled before an item raises, and whether one does. */
  function Handled(items: seq<Item>): seq<Item> {
    if items == [] || items[0].Raises? then [] else [items[0]] + Handled(items[1..])
  }

  /** How the loop ends: at the first poll that reads "cancelled" or raises, or the first item that
      raises, whichever comes first. */
  function LoopStop(script: Script, from: nat): Stop
    requires from <= |script.chunks|
    decreases |script.chunks| - from
  {
    if from == |script.chunks| then (if script.streamRaises then Error else UsedUp)
    else match script.chunks[from].poll
      case PollRaises => Error
      case Due(Some(Cancelled)) => Cancel
      case _ => if Raises in script.chunks[from].items then Error else LoopStop(script, from + 1)
  }

  function AllHandled(script: Script, from: nat): seq<Item>
    requires from <= |script.chunks|
    decreases |script.chunks| - from
  {
    if from == |script.chunks| || script.chunks[from].poll.PollRaises? then []
    else if script.chunks[from].poll == Due(Some(Cancelled)) then []
    else Handled(script.chunks[from].items) +
         (if Raises in script.chunks[from].items then [] else AllHandled(script, from + 1))
  }

  /** The worker's accumulator over handled updates. */
  function Accumulate(s: State, items: seq<Item>): State
    decreases |items|
  {
    if items == [] || items[0].Raises? then s else Accumulate(Overwrite(s, items[0].update), items[1..])
  }

  lemma {:induction false} AccumulateAppend(s: State, items: seq<Item>, last: Item)
    requires last.Item? && Raises !in items
    ensures Accumulate(s, items + [last]) == Overwrite(Accumulate(s, items), last.update)
    decreases |items|
  {
    if items == [] {
      assert ([last])[1..] == [];
    } else {
      assert (items + [last])[1..] == items[1..] + [last];
      assert items[0] in items;
      AccumulateAppend(Overwrite(s, items[0].update), items[1..], last);
    }
  }

  lemma {:induction false} HandledPrefix(items: seq<Item>, i: nat)
    requires i <= |items| && Raises !in items[..i]
    ensures Handled(items) == items[..i] + Handled(items[i..])
  {
    if i > 0 {
      assert items[0] == items[..i][0];
      assert items[1..][..i - 1] == items[..i][1..];
      HandledPrefix(items[1..], i - 1);
      assert items[1..][i - 1..] == items[i..];
    } else {
      assert items[i..] == items;
    }
  }

  lemma {:induction false} NothingRaisesHandled(items: seq<Item>)
    ensures Raises !in Handled(items)
    ensures Raises !in items ==> Handled(items) == items
  {
    if items != [] && items[0].Item? {
      NothingRaisesHandled(items[1..]);
    }
  }

  // ---------------------------------------------------------------- the run

  function NodeName(node: Node): string {
    match node
    case Generate => "generate" case Simulate => "simulate" case Judge => "judge"
    case Analyze => "analyze" case Evolution => "evolution"
  }

  /** Events name their nodes apart, from each other and from the start and the two ends. */
  lemma NamesDiffer(a: Node, b: Node)
    ensures NodeName(a) == NodeName(b) <==> a == b
    ensures NodeName(a) !in {"start", "end", "error"}
  {
    assert |"generate"| == 8 && |"simulate"| == 8 && |"judge"| == 5 && |"analyze"| == 7 && |"evolution"| == 9;
    assert "generate"[0] != "simulate"[0] && "judge"[0] != "start"[0] && "judge"[0] != "error"[0];
  }

  /** The start event and one running event per handled update, numbered from 1 and naming its node. */
  ghost predicate RunningEvents(attempts: seq<Attempt>, handled: seq<Item>) {
    && Raises !in handled && |attempts| == |handled| + 1
    && attempts[0] == Attempt(1, EvRunning, "start")
    && forall k :: 0 <= k < |handled| ==> attempts[k + 1] == RunningEvent(handled, k)
  }

  ghost function RunningEvent(handled: seq<Item>, k: nat): Attempt
    requires k < |handled| && Raises !in handled
  {
    assert handled[k] in handled;
    Attempt(k + 2, EvRunning, NodeName(handled[k].node))
  }

  lemma EventsAppend(attempts: seq<Attempt>, handled: seq<Item>, item: Item)
    requires RunningEvents(attempts, handled) && item.Item?
    ensures RunningEvents(attempts + [Attempt(|handled| + 2, EvRunning, NodeName(item.node))], handled + [item])
  {
    var attempts', handled' := attempts + [Attempt(|handled| + 2, EvRunning, NodeName(item.node))], handled + [item];
    assert Raises !in handled';
    forall k | 0 <= k < |handled'| ensures attempts'[k + 1] == RunningEvent(handled', k) {
      if k < |handled| {
        assert attempts[k + 1] == RunningEvent(handled, k);
      }
    }
  }

  /** One chunk's items: each is folded in and announced, until one raises. */
  method HandleChunk(items: seq<Item>, state: State, attempts: seq<Attempt>, seqNum: nat, ghost done: seq<Item>)
    returns (state': State, attempts': seq<Attempt>, seqNum': nat, raised: bool)
    requires RunningEvents(attempts, done) && Raises !in done && seqNum == |done| + 2
    requires state == Accumulate(INITIAL, done)
    ensures raised <==> Raises in items
    ensures state' == Accumulate(INITIAL, done + Handled(items)) && Raises !in done + Handled(items)
    ensures RunningEvents(attempts', done + Handled(items)) && seqNum' == |done + Handled(items)| + 2
  {
    state', attempts', seqNum', raised := state, attempts, seqNum, false;
    var j := 0;
    NothingRaisesHandled(items);
    assert done + items[..0] == done;
    while j < |items|
      invariant j <= |items| && Raises !in items[..j]
      invariant state' == Accumulate(INITIAL, done + items[..j])
      invariant RunningEvents(attempts', done + items[..j]) && seqNum' == |done| + j + 2
    {
      if items[j].Raises? {
        HandledPrefix(items, j);
        assert items[j..][0] == items[j];
        assert Handled(items) == items[..j] + [] == items[..j];
        raised := true;
        return;
      }
      state' := Overwrite(state', items[j].update);
      AccumulateAppend(INITIAL, done + items[..j], items[j]);
      assert (done + items[..j]) + [items[j]] == done + items[..j + 1];
      EventsAppend(attempts', done + items[..j], items[j]);
      attempts' := attempts' + [Attempt(seqNum', EvRunning, NodeName(items[j].node))];
      seqNum' := seqNum' + 1;
      j := j + 1;
    }
    assert items[..j] == items;
  }

  /** What is handled after chunk i, if chunk i does not raise. */
  ghost function Rest(script: Script, i: nat): seq<Item>
    requires i < |script.chunks|
  {
    if Raises in script.chunks[i].items then [] else AllHandled(script, i + 1)
  }

  /** `done` is what has been handled before chunk i, and the rest is still to come. */
  ghost predicate Reached(script: Script, i: nat, done: seq<Item>) {
    && i <= |script.chunks| && Raises !in done
    && AllHandled(script, 0) == done + AllHandled(script, i)
    && LoopStop(script, 0) == LoopStop(script, i)
  }

  /** The loop stops at chunk i, or after the last. */
  lemma {:induction false} Stops(script: Script, i: nat, done: seq<Item>)
    requires Reached(script, i, done)
    requires i < |script.chunks| ==> script.chunks[i].poll.PollRaises? || script.chunks[i].poll == Due(Some(Cancelled))
    ensures AllHandled(script, 0) == done
    ensures LoopStop(script, 0)
         == if i == |script.chunks| then (if script.streamRaises then Error else UsedUp)
            else if script.chunks[i].poll.PollRaises? then Error else Cancel
  {
    assert done + [] == done;
  }

  lemma Associate(a: seq<Item>, b: seq<Item>, c: seq<Item>)
    ensures a + (b + c) == a + b + c
    ensures a + b + [] == a + b
  {
  }

  lemma HandlesOne(script: Script, i: nat)
    requires i < |script.chunks|
    requires !script.chunks[i].poll.PollRaises? && script.chunks[i].poll != Due(Some(Cancelled))
    ensures AllHandled(script, i) == Handled(script.chunks[i].items) + Rest(script, i)
    ensures LoopStop(script, i) == if Raises in script.chunks[i].items then Error else LoopStop(script, i + 1)
  {
  }

  /** It handles chunk i and stops there, or goes on. */
  lemma {:induction false} Handles(script: Script, i: nat, done: seq<Item>)
    requires i < |script.chunks| && Reached(script, i, done)
    requires !script.chunks[i].poll.PollRaises? && script.chunks[i].poll != Due(Some(Cancelled))
    ensures var done' := done + Handled(script.chunks[i].items);
      && Raises !in done'
      && (Raises in script.chunks[i].items ==> AllHandled(script, 0) == done' && LoopStop(script, 0) == Error)
      && (Raises !in script.chunks[i].items ==> Reached(script, i + 1, done'))
  {
    HandlesOne(script, i);
    NothingRaisesHandled(script.chunks[i].items);
    Associate(done, Handled(script.chunks[i].items), Rest(script, i));
  }

  /** The loop over the stream: one running event per handled update, and how it stopped. */
  method EventLoop(script: Script)
    returns (state: State, attempts: seq<Attempt>, seqNum: nat, cancelled: bool, raised: bool)
    ensures RunningEvents(attempts, AllHandled(script, 0)) && seqNum == |AllHandled(script, 0)| + 2
    ensures cancelled <==> LoopStop(script, 0) == Cancel
    ensures raised <==> LoopStop(script, 0) == Error
    ensures state == if cancelled then Accumulate(INITIAL, AllHandled(script, 0)).(
                       errors := Accumulate(INITIAL, AllHandled(script, 0)).errors + ["Run cancelled by user."])
                     else Accumulate(INITIAL, AllHandled(script, 0))
  {
    seqNum := 1;
    attempts := [Attempt(seqNum, EvRunning, "start")];
    seqNum := seqNum + 1;
    state, cancelled, raised := INITIAL, false, false;
    var currentStatus := Some(RunTable.Running);
    ghost var done: seq<Item> := [];
    var i := 0;
    assert done + AllHandled(script, 0) == AllHandled(script, 0);
    while i < |script.chunks|
      invariant Reached(script, i, done)
      invariant RunningEvents(attempts, done) && seqNum == |done| + 2
      invariant currentStatus != Some(RunTable.Cancelled) && !cancelled && !raised
      invariant state == Accumulate(INITIAL, done)
    {
      var chunk := script.chunks[i];
      match chunk.poll {
        case NotDue =>
        case Due(status) => currentStatus := status;
        case PollRaises =>
          Stops(script, i, done);
          raised := true;
          return;
      }
      if currentStatus == Some(RunTable.Cancelled) {
        Stops(script, i, done);
        state := state.(errors := state.errors + ["Run cancelled by user."]);
        cancelled := true;
        return;
      }
      Handles(script, i, done);
      state, attempts, seqNum, raised := HandleChunk(chunk.items, state, attempts, seqNum, done);
      done := done + Handled(chunk.items);
      if raised {
        return;
      }
      i := i + 1;
    }
    Stops(script, i, done);
    raised := script.streamRaises;
  }

  /** The status the worker will write. */
  function Verdict(script: Script): RunTable.Status {
    match LoopStop(script, 0)
    case Cancel => RunTable.Cancelled
    case Error => RunTable.Failed
    case UsedUp => if !script.rowGone && script.saveRaises then RunTable.Failed else RunTable.Completed
  }

  predicate SavesResults(script: Script) {
    LoopStop(script, 0) != Error && !script.rowGone && !script.saveRaises
  }

  /** For any stream of events, any cancellation and any exception: events are numbered 1, 2, ...,
      all but the last are running, and the last is the only terminal one: completed if the run
      is, failed if the run failed and also if it was cancelled, because the event's schema has no
      "cancelled". The one run without a terminal event is a cancelled one whose row was deleted:
      its failure handler raises as well. */
  method ExecuteRun(script: Script) returns (out: Outcome)
    ensures var n := |AllHandled(script, 0)|;
      && |out.attempts| == (if out.cancelled && script.rowGone then n + 1 else n + 2)
      && (forall k :: 0 <= k < |out.attempts| ==> out.attempts[k].seqNum == k + 1)
      && (forall k :: 0 <= k <= n ==> out.attempts[k].status == EvRunning)
      && (|out.attempts| == n + 2 ==>
            out.attempts[n + 1] == if out.verdict == RunTable.Completed then Attempt(n + 2, EvCompleted, "end")
                                   else Attempt(n + 2, EvFailed, "error"))
    ensures var handled := AllHandled(script, 0);
      |handled| < |out.attempts| && RunningEvents(out.attempts[..|handled| + 1], handled)
    ensures out.cancelled <==> LoopStop(script, 0) == Cancel
    ensures out.verdict == RunTable.Completed <==>
              LoopStop(script, 0) == UsedUp && (script.rowGone || !script.saveRaises)
    ensures out.verdict == RunTable.Cancelled <==> out.cancelled
    ensures out.verdict in {RunTable.Completed, RunTable.Failed, RunTable.Cancelled}
    ensures out.saved <==> LoopStop(script, 0) != Error && !script.rowGone && !script.saveRaises
    ensures out.verdict == Verdict(script) && out.saved == SavesResults(script)
    ensures SameResults(out.state, Accumulate(INITIAL, AllHandled(script, 0)))
  {
    var state, attempts, seqNum, cancelled, raised := EventLoop(script);
    ghost var running := attempts;
    assert forall k :: 0 < k < |running| ==> running[k] == RunningEvent(AllHandled(script, 0), k - 1);
    var saved, runIsNone := false, false;
    if !raised {
      if script.rowGone {
        runIsNone := true;
      } else if script.saveRaises {
        raised := true;
      } else {
        saved := true;
      }
    }
    if !raised {
      if cancelled {
        raised := true;
      } else {
        attempts := attempts + [Attempt(seqNum, EvCompleted, "end")];
      }
    }
    var fatal := raised && !runIsNone;
    if fatal {
      attempts := attempts + [Attempt(seqNum, EvFailed, "error")];
    }
    assert attempts[..|running|] == running;
    var verdict := if cancelled then RunTable.Cancelled else if fatal then RunTable.Failed else RunTable.Completed;
    out := Outcome(attempts, state, cancelled, fatal, saved, verdict);
  }

  // ---------------------------------------------------------------- with the graph's own stream

  /** The graph's stream: one event per visited node. */
  ghost predicate StreamsGraph(script: Script, v: seq<Visit>) {
    && |script.chunks| <= |v|
    && forall i :: 0 <= i < |script.chunks| ==> script.chunks[i].items == [Item(v[i].node, v[i].update)]
  }

  /** What one chunk of the stream contributes. */
  lemma {:induction false} HandledVisit(script: Script, v: seq<Visit>, from: nat)
    requires StreamsGraph(script, v) && from < |script.chunks|
    ensures var item := Item(v[from].node, v[from].update);
      if script.chunks[from].poll.PollRaises? || script.chunks[from].poll == Due(Some(Cancelled))
      then AllHandled(script, from) == [] && LoopStop(script, from) != UsedUp
      else
        && AllHandled(script, from) == [item] + AllHandled(script, from + 1)
        && LoopStop(script, from) == LoopStop(script, from + 1)
  {
    var one := [Item(v[from].node, v[from].update)];
    assert script.chunks[from].items == one;
    assert one[1..] == [];
    assert Handled(one) == [one[0]] + Handled(one[1..]);
  }

  lemma {:induction false} HandledVisits(script: Script, v: seq<Visit>, from: nat)
    requires StreamsGraph(script, v) && from <= |script.chunks|
    ensures var items := AllHandled(script, from);
      && |items| <= |script.chunks| - from
      && (forall k :: 0 <= k < |items| ==> items[k] == Item(v[from + k].node, v[from + k].update))
      && (LoopStop(script, from) == UsedUp ==> |items| == |script.chunks| - from)
    decreases |script.chunks| - from
  {
    if from < |script.chunks| {
      HandledVisits(script, v, from + 1);
      HandledVisit(script, v, from);
      var items, rest := AllHandled(script, from), AllHandled(script, from + 1);
      forall k | 0 <= k < |items| ensures items[k] == Item(v[from + k].node, v[from + k].update) {
        assert k > 0 ==> items[k] == rest[k - 1] == Item(v[from + 1 + (k - 1)].node, v[from + 1 + (k - 1)].update);
      }
    }
  }

  lemma {:induction false} AccumulatesVisits(items: seq<Item>, v: seq<Visit>, n: nat)
    requires n <= |items| && |items| <= |v| && Raises !in items
    requires forall k :: 0 <= k < |items| ==> items[k] == Item(v[k].node, v[k].update)
    ensures Accumulate(INITIAL, items[..n]) == Accumulated(v[..n])
  {
    if n > 0 {
      AccumulatesVisits(items, v, n - 1);
      assert items[..n] == items[..n - 1] + [items[n - 1]];
      assert items[n - 1] in items;
      AccumulateAppend(INITIAL, items[..n - 1], items[n - 1]);
      AccumulatedStep(v, n - 1);
    }
  }

  /** With the graph's own stream, what the worker saves is what the graph computed: after any
      number of handled events, at a cancellation or an exception as much as at the end, the two
      agree on scenarios, traces, judgments, suggestions and drift profile. And a run publishes at
      most seven events, so its replay buffer of 200 never drops one. */
  lemma {:induction false} SavedResultsAreTheGraphs(script: Script, v: seq<Visit>, budget: real,
                                                    outcome: Node -> Update)
    requires IsExecution(v, Generate, INITIAL, budget, outcome) && StreamsGraph(script, v)
    requires forall i :: 0 <= i < |v| ==> WritesItsOwn(v[i].node, v[i].update)
    ensures var n := |AllHandled(script, 0)|;
      && n + 2 <= 7
      && n <= |v|
      && (n > 0 ==> SameResults(Accumulate(INITIAL, AllHandled(script, 0)), v[n - 1].after))
      && (LoopStop(script, 0) == UsedUp && |script.chunks| == |v| ==> n == |v|)
  {
    HandledVisits(script, v, 0);
    GraphWithinBudget(v, budget, outcome);
    var items := AllHandled(script, 0);
    var n := |items|;
    AccumulatesVisits(items, v, n);
    assert items[..n] == items;
    if n > 0 {
      AccumulatorKeepsResults(v, budget, outcome, n);
    }
  }

  // ---------------------------------------------------------------- where the loop stops

  /** The loop does not get past chunk i. */
  predicate StopsAt(script: Script, i: nat)
    requires i < |script.chunks|
  {
    || script.chunks[i].poll.PollRaises?
    || script.chunks[i].poll == Due(Some(Cancelled))
    || exists j :: 0 <= j < |script.chunks[i].items| && script.chunks[i].items[j].Raises?
  }

  /** The loop ends at the end of the stream if no chunk stops it; otherwise the first that does
      decides: a cancellation if its poll read one, else an exception. */
  lemma {:induction false} FirstStopDecides(script: Script, from: nat, stop: nat)
    requires from <= stop <= |script.chunks|
    requires forall j: nat :: from <= j < stop ==> !StopsAt(script, j)
    requires stop < |script.chunks| ==> StopsAt(script, stop)
    ensures LoopStop(script, from) ==
              if stop == |script.chunks| then (if script.streamRaises then Error else UsedUp)
              else if script.chunks[stop].poll == Due(Some(Cancelled)) then Cancel
              else Error
    decreases |script.chunks| - from
  {
    if from < |script.chunks| {
      var items := script.chunks[from].items;
      assert Raises in items <==> exists j :: 0 <= j < |items| && items[j].Raises?;
      if from < stop {
        assert !StopsAt(script, from);
        FirstStopDecides(script, from + 1, stop);
      }
    }
  }

  /** The items of the chunks before one, end to end. */
  function ItemsBefore(script: Script, from: nat, to: nat): seq<Item>
    requires from <= to <= |script.chunks|
    decreases |script.chunks| - from
  {
    if from == to then [] else script.chunks[from].items + ItemsBefore(script, from + 1, to)
  }

  /** Of one chunk what precedes the first item that raises is handled. */
  lemma {:induction false} HandledUpToRaise(items: seq<Item>)
    ensures Handled(items) <= items && Raises !in Handled(items)
    ensures |Handled(items)| < |items| ==> items[|Handled(items)|].Raises?
  {
    if items != [] && items[0].Item? {
      HandledUpToRaise(items[1..]);
    }
  }

  /** What is handled of the chunk that stops the loop: nothing if its poll did. */
  function LastItems(script: Script, stop: nat): seq<Item> {
    if stop >= |script.chunks| || script.chunks[stop].poll.PollRaises? then []
    else if script.chunks[stop].poll == Due(Some(Cancelled)) then []
    else Handled(script.chunks[stop].items)
  }

  lemma {:induction false} HandledAtTheStop(script: Script, stop: nat)
    requires stop <= |script.chunks| && (stop < |script.chunks| ==> StopsAt(script, stop))
    ensures AllHandled(script, stop) == LastItems(script, stop)
  {
    if stop < |script.chunks| {
      var items := script.chunks[stop].items;
      assert Handled(items) + [] == Handled(items);
      assert Raises in items <==> exists j :: 0 <= j < |items| && items[j].Raises?;
    }
  }

  lemma {:induction false} HandledBeforeTheStop(script: Script, i: nat)
    requires i < |script.chunks| && !StopsAt(script, i)
    ensures AllHandled(script, i) == script.chunks[i].items + AllHandled(script, i + 1)
  {
    NothingRaisesHandled(script.chunks[i].items);
  }

  lemma OneChunkMore(chunk: seq<Item>, rest: seq<Item>, last: seq<Item>)
    ensures chunk + (rest + last) == chunk + rest + last
  {
  }

  /** All items of the chunks before the stop are handled, and of the chunk that stops it those before
      the item that raises. */
  lemma {:induction false} HandledUpToTheStop(script: Script, from: nat, stop: nat)
    requires from <= stop <= |script.chunks|
    requires forall j: nat :: from <= j < stop ==> !StopsAt(script, j)
    requires stop < |script.chunks| ==> StopsAt(script, stop)
    ensures AllHandled(script, from) == ItemsBefore(script, from, stop) + LastItems(script, stop)
    decreases |script.chunks| - from
  {
    if from == stop {
      HandledAtTheStop(script, stop);
      assert [] + LastItems(script, stop) == LastItems(script, stop);
    } else {
      HandledUpToTheStop(script, from + 1, stop);
      HandledBeforeTheStop(script, from);
      OneChunkMore(script.chunks[from].items, ItemsBefore(script, from + 1, stop), LastItems(script, stop));
    }
  }
}
