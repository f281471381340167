/** The worker's imperative body as a worker of the run lifecycle: what happens to one run, as told by a
    script, is a legal sequence of lifecycle steps that ends with the row the script's outcome says. */
module WorkerRefinement {
  import opened Wrappers
  import opened RunTable
  import opened RunLifecycle
  import opened RunSafety
  import opened RunPaths
  import W = WorkerLoop

  /** From the saving transaction on: it raises, or it commits and the terminal event follows, whose
      constructor rejects "cancelled". */
  function SaveSteps(w: ActorId, cancelled: bool, raises: bool, judgments: seq<bool>, avg: Option<real>): seq<Step> {
    if raises then [Raise(w)] + [TerminalWrite(w)]
    else [Persist(w, judgments, avg)] + ([if cancelled then Raise(w) else Conclude(w)] + [TerminalWrite(w)])
  }

  /** From the end of the event loop on; an admin may have deleted the run by then. */
  function ReloadSteps(w: ActorId, r: RunId, cancelled: bool, script: W.Script, judgments: seq<bool>,
                       avg: Option<real>): seq<Step> {
    if script.rowGone then [Delete(r)] + SaveSteps(w, cancelled, false, judgments, avg)
    else SaveSteps(w, cancelled, script.saveRaises, judgments, avg)
  }

  /** The whole body of the worker, after its claim. */
  function BodySteps(w: ActorId, r: RunId, script: W.Script, judgments: seq<bool>, avg: Option<real>): seq<Step> {
    match W.LoopStop(script, 0)
    case Error => [Raise(w)] + [TerminalWrite(w)]
    case UsedUp => [LeaveLoop(w)] + ReloadSteps(w, r, false, script, judgments, avg)
    case Cancel => [NoticeCancel(w)] + ReloadSteps(w, r, true, script, judgments, avg)
  }

  /** The row after the worker is done: the verdict, unless the run had failed or completed meanwhile,
      and the results, if they were saved. */
  predicate RowEndsAs(before: Run, after: Run, verdict: Status, saved: bool, judgments: seq<bool>) {
    && after.status == (if before.status in {Running, Cancelled} then verdict else before.status)
    && (if saved then ResultsSaved(after) && after.judgments == before.judgments + judgments
        else !ResultsSaved(after) && after.judgments == before.judgments)
  }

  /** The steps are legal, the worker is done, its row has ended as said and the others are untouched. */
  ghost predicate EndsAs(s: State, steps: seq<Step>, w: ActorId, r: RunId, verdict: Status, saved: bool,
                         judgments: seq<bool>) {
    && Legal(s, steps)
    && var end := After(s, steps);
    && w in end.workers && end.workers[w] == Finished(r)
    && (r in end.runs <==> r in s.runs)
    && (r in s.runs ==> RowEndsAs(s.runs[r], end.runs[r], verdict, saved, judgments))
    && forall q :: q in s.runs && q != r ==> q in end.runs && end.runs[q] == s.runs[q]
  }

  lemma {:induction false} TerminalEnd(s: State, w: ActorId, saved: bool)
    requires w in s.workers && s.workers[w].Ending? && Rank(s.workers[w].verdict) == 2
    requires var r := s.workers[w].run; r in s.runs ==> s.runs[r].status != Pending && ResultsSaved(s.runs[r]) == saved
    ensures EndsAs(s, [TerminalWrite(w)], w, s.workers[w].run, s.workers[w].verdict, saved, [])
  {
    First(s, TerminalWrite(w), []);
    assert [TerminalWrite(w)] + [] == [TerminalWrite(w)];
    var r := s.workers[w].run;
    if r in s.runs {
      assert s.runs[r].judgments + [] == s.runs[r].judgments;
    }
  }

  /** A first step that leaves the table alone. */
  lemma {:induction false} QuietStep(s: State, step: Step, rest: seq<Step>, w: ActorId, r: RunId, verdict: Status,
                                     saved: bool, judgments: seq<bool>)
    requires Enabled(s, step) && Apply(s, step).runs == s.runs
    requires EndsAs(Apply(s, step), rest, w, r, verdict, saved, judgments)
    ensures EndsAs(s, [step] + rest, w, r, verdict, saved, judgments)
  {
    First(s, step, rest);
  }

  predicate Unsaved(s: State, w: ActorId)
    requires w in s.workers
  {
    var r := s.workers[w].run;
    r in s.runs ==> s.runs[r].status != Pending && !ResultsSaved(s.runs[r])
  }

  /** An exception before the results are saved. */
  lemma {:induction false} RaiseEnd(s: State, w: ActorId, cancelled: bool)
    requires w in s.workers && (s.workers[w].Executing? || s.workers[w].Saving?) && Unsaved(s, w)
    requires cancelled == (s.workers[w].Saving? && s.workers[w].cancelled)
    ensures EndsAs(s, [Raise(w)] + [TerminalWrite(w)], w, s.workers[w].run, if cancelled
        then Cancelled else Failed, false, [])
  {
    TerminalEnd(Apply(s, Raise(w)), w, false);
    QuietStep(s, Raise(w), [TerminalWrite(w)], w, s.workers[w].run, if cancelled then Cancelled else Failed, false, []);
  }

  lemma {:induction false} CloseWith(s: State, w: ActorId, close: Step, verdict: Status)
    requires w in s.workers && s.workers[w].Closing? && Enabled(s, close) && Rank(verdict) == 2
    requires var r := s.workers[w].run;
      && (r in s.runs ==> s.runs[r].status != Pending && ResultsSaved(s.runs[r]))
      && Apply(s, close) == s.(workers := s.workers[w := Ending(r, verdict)])
    ensures EndsAs(s, [close] + [TerminalWrite(w)], w, s.workers[w].run, verdict, true, [])
  {
    TerminalEnd(Apply(s, close), w, true);
    QuietStep(s, close, [TerminalWrite(w)], w, s.workers[w].run, verdict, true, []);
  }

  /** The end after the results are saved, or after there was no row left to save them in. */
  lemma {:induction false} CloseEnd(s: State, w: ActorId)
    requires w in s.workers && s.workers[w].Closing?
    requires var r := s.workers[w].run; r in s.runs ==> s.runs[r].status != Pending && ResultsSaved(s.runs[r])
    ensures EndsAs(s, [if s.workers[w].cancelled
        then Raise(w) else Conclude(w)] + [TerminalWrite(w)], w, s.workers[w].run,
                   if s.workers[w].cancelled then Cancelled else Completed, true, [])
  {
    if s.workers[w].cancelled {
      CloseWith(s, w, Raise(w), Cancelled);
    } else {
      CloseWith(s, w, Conclude(w), Completed);
    }
  }

  lemma {:induction false} PersistEnd(s: State, w: ActorId, rest: seq<Step>, verdict: Status, judgments: seq<bool>,
                                      avg: Option<real>)
    requires w in s.workers && s.workers[w].Saving? && Unsaved(s, w)
    requires EndsAs(Apply(s, Persist(w, judgments, avg)), rest, w, s.workers[w].run, verdict, true, [])
    ensures EndsAs(s, [Persist(w, judgments, avg)] + rest, w, s.workers[w].run, verdict, true, judgments)
  {
    First(s, Persist(w, judgments, avg), rest);
    var r := s.workers[w].run;
    if r in s.runs {
      assert s.runs[r].judgments + judgments + [] == s.runs[r].judgments + judgments;
    }
  }

  lemma {:induction false} SaveEnd(s: State, w: ActorId, raises: bool, judgments: seq<bool>, avg: Option<real>)
    requires w in s.workers && s.workers[w].Saving? && Unsaved(s, w)
    ensures var cancelled := s.workers[w].cancelled;
      EndsAs(s, SaveSteps(w, cancelled, raises, judgments, avg), w, s.workers[w].run,
             if cancelled then Cancelled
                 else if raises then Failed else Completed, !raises, if raises then [] else judgments)
  {
    var cancelled := s.workers[w].cancelled;
    if raises {
      RaiseEnd(s, w, cancelled);
    } else {
      CloseEnd(Apply(s, Persist(w, judgments, avg)), w);
      PersistEnd(s, w, [if cancelled then Raise(w) else Conclude(w)] + [TerminalWrite(w)],
                 if cancelled then Cancelled else Completed, judgments, avg);
    }
  }

  /** What is left of the run: nothing if it was deleted, else the row as the script's outcome says. */
  ghost predicate BodyEndsAs(s: State, steps: seq<Step>, w: ActorId, r: RunId, script: W.Script, judgments: seq<bool>)
    requires r in s.runs
  {
    && Legal(s, steps)
    && var end := After(s, steps);
    && w in end.workers && end.workers[w] == Finished(r)
    && (r in end.runs <==> W.LoopStop(script, 0) == W.Error || !script.rowGone)
    && (r in end.runs ==> RowEndsAs(s.runs[r], end.runs[r], W.Verdict(script), W.SavesResults(script), judgments))
    && forall q :: q in s.runs && q != r ==> q in end.runs && end.runs[q] == s.runs[q]
  }

  lemma {:induction false} ReloadEnd(s: State, w: ActorId, script: W.Script, judgments: seq<bool>, avg: Option<real>)
    requires w in s.workers && s.workers[w].Saving? && Unsaved(s, w) && s.workers[w].run in s.runs
    requires W.LoopStop(script, 0) == if s.workers[w].cancelled then W.Cancel else W.UsedUp
    ensures BodyEndsAs(s, ReloadSteps(w, s.workers[w].run, s.workers[w].cancelled, script, judgments, avg), w,
                       s.workers[w].run, script, judgments)
  {
    var r, cancelled := s.workers[w].run, s.workers[w].cancelled;
    if script.rowGone {
      SaveEnd(Apply(s, Delete(r)), w, false, judgments, avg);
      First(s, Delete(r), SaveSteps(w, cancelled, false, judgments, avg));
    } else {
      SaveEnd(s, w, script.saveRaises, judgments, avg);
    }
  }

  /** For every stream of events, every cancellation and exception point and every outcome of saving:
      from its event loop, the worker's body is a legal sequence of lifecycle steps that leaves the
      run with the verdict and the results that the body's own specification gives, or deleted. */
  lemma {:induction false} BodyIsALifecycle(s: State, w: ActorId, script: W.Script, judgments: seq<bool>,
                                            avg: Option<real>)
    requires Inv(s) && w in s.workers && s.workers[w].Executing? && s.workers[w].run in s.runs
    requires W.LoopStop(script, 0) == W.Cancel ==> s.runs[s.workers[w].run].status == Cancelled
    ensures BodyEndsAs(s, BodySteps(w, s.workers[w].run, script, judgments, avg), w, s.workers[w].run, script,
        judgments)
  {
    var r := s.workers[w].run;
    assert WorkerOk(s, s.workers[w]);
    match W.LoopStop(script, 0)
    case Error => RaiseEnd(s, w, false);
    case UsedUp =>
      ReloadEnd(Apply(s, LeaveLoop(w)), w, script, judgments, avg);
      First(s, LeaveLoop(w), ReloadSteps(w, r, false, script, judgments, avg));
    case Cancel =>
      ReloadEnd(Apply(s, NoticeCancel(w)), w, script, judgments, avg);
      First(s, NoticeCancel(w), ReloadSteps(w, r, true, script, judgments, avg));
  }

  // ---------------------------------------------------------------- with everyone else in between

  /** A step of worker w's body. */
  predicate IsOwn(step: Step, w: ActorId) {
    && (step.LeaveLoop? || step.NoticeCancel? || step.Persist? || step.Conclude? || step.Raise? || step.TerminalWrite?)
    && step.w == w
  }

  function OwnSteps(steps: seq<Step>, w: ActorId): seq<Step> {
    if steps == [] then []
    else if IsOwn(steps[0], w) then [steps[0]] + OwnSteps(steps[1..], w)
    else OwnSteps(steps[1..], w)
  }

  /** Where a step of its own takes a worker, whatever the rest of the system is doing. */
  function Local(worker: Worker, step: Step): Worker {
    var cancelled := (worker.Saving? || worker.Closing?) && worker.cancelled;
    match step
    case LeaveLoop(_) => Saving(worker.run, false)
    case NoticeCancel(_) => Saving(worker.run, true)
    case Persist(_, _, _) => Closing(worker.run, cancelled)
    case Conclude(_) => Ending(worker.run, Completed)
    case Raise(_) => Ending(worker.run, if cancelled then Cancelled else Failed)
    case TerminalWrite(_) => Finished(worker.run)
    case _ => worker
  }

  function LocalRun(worker: Worker, own: seq<Step>): Worker
    decreases |own|
  {
    if own == [] then worker else LocalRun(Local(worker, own[0]), own[1..])
  }

  lemma LocalStep(s: State, step: Step, w: ActorId)
    requires Enabled(s, step) && w in s.workers
    ensures w in Apply(s, step).workers
    ensures Apply(s, step).workers[w] == if IsOwn(step, w) then Local(s.workers[w], step) else s.workers[w]
  {
  }

  /** A worker's state depends on its own steps alone. */
  lemma {:induction false} LocalPath(s: State, steps: seq<Step>, w: ActorId)
    requires Legal(s, steps) && w in s.workers
    ensures w in After(s, steps).workers
    ensures After(s, steps).workers[w] == LocalRun(s.workers[w], OwnSteps(steps, w))
    decreases |steps|
  {
    if steps != [] {
      LocalStep(s, steps[0], w);
      LocalPath(Apply(s, steps[0]), steps[1..], w);
    }
  }

  /** The judgments a worker's steps save, and whether they save any results. */
  function Persisted(own: seq<Step>): seq<bool> {
    if own == [] then [] else (if own[0].Persist? then own[0].judgments else []) + Persisted(own[1..])
  }

  predicate Persists(own: seq<Step>) { exists i :: 0 <= i < |own| && own[i].Persist? }

  /** From one table to a later one the run's results have grown by what these steps persist. */
  ghost predicate Carries(before: Table, after: Table, r: RunId, own: seq<Step>) {
    r in after ==>
      && r in before && after[r].judgments == before[r].judgments + Persisted(own)
      && (ResultsSaved(after[r]) <==> ResultsSaved(before[r]) || Persists(own))
  }

  lemma {:induction false} CarriesChain(a: Table, b: Table, c: Table, r: RunId, first: seq<Step>, rest: seq<Step>,
                                        own: seq<Step>)
    requires Carries(a, b, r, first) && Carries(b, c, r, rest)
    requires Persisted(own) == Persisted(first) + Persisted(rest)
    requires Persists(own) <==> Persists(first) || Persists(rest)
    ensures Carries(a, c, r, own)
  {
    if r in c {
      assert a[r].judgments + Persisted(first) + Persisted(rest) ==
          a[r].judgments + (Persisted(first) + Persisted(rest));
    }
  }

  lemma ResultsStep(s: State, step: Step, w: ActorId)
    requires Inv(s) && Enabled(s, step) && w in s.workers
    ensures Carries(s.runs, TableAfter(s, step), s.workers[w].run, if IsOwn(step, w) then [step] else [])
  {
    var r := s.workers[w].run;
    TableIds(s, step);
    assert WorkerOk(s, s.workers[w]);
    if r in TableAfter(s, step) {
      if step.Persist? {
        assert step.w != w ==> s.workers[step.w].run != r;
      } else {
        JudgmentsStay(s, step, r);
        assert s.runs[r].judgments + [] == s.runs[r].judgments;
      }
    }
  }

  lemma JudgmentsStay(s: State, step: Step, r: RunId)
    requires Enabled(s, step) && !step.Persist? && (step.Insert? ==> step.id != r)
    requires r in s.runs && r in TableAfter(s, step)
    ensures TableAfter(s, step)[r].judgments == s.runs[r].judgments
    ensures ResultsSaved(TableAfter(s, step)[r]) <==> ResultsSaved(s.runs[r])
  {
    ResultsOnlyBySaving(s, step, r);
  }

  /** So do the results of its run, for as long as the row is there. */
  lemma {:induction false} ResultsPath(s: State, steps: seq<Step>, w: ActorId)
    requires Inv(s) && Legal(s, steps) && w in s.workers
    ensures Carries(s.runs, After(s, steps).runs, s.workers[w].run, OwnSteps(steps, w))
    decreases |steps|
  {
    if steps == [] {
      var r := s.workers[w].run;
      assert r in s.runs ==> s.runs[r].judgments + [] == s.runs[r].judgments;
    } else {
      var step, next := steps[0], Apply(s, steps[0]);
      InvStep(s, step);
      AppliesTable(s, step);
      LocalStep(s, step, w);
      ResultsStep(s, step, w);
      ResultsPath(next, steps[1..], w);
      OwnSplit(steps, w);
      CarriesChain(s.runs, next.runs, After(next, steps[1..]).runs, s.workers[w].run,
                   if IsOwn(step, w) then [step] else [], OwnSteps(steps[1..], w), OwnSteps(steps, w));
    }
  }

  lemma {:induction false} OwnSplit(steps: seq<Step>, w: ActorId)
    requires steps != []
    ensures var first, rest := if IsOwn(steps[0], w) then [steps[0]] else [], OwnSteps(steps[1..], w);
      && Persisted(OwnSteps(steps, w)) == Persisted(first) + Persisted(rest)
      && (Persists(OwnSteps(steps, w)) <==> Persists(first) || Persists(rest))
  {
    var rest := OwnSteps(steps[1..], w);
    if IsOwn(steps[0], w) {
      var own := [steps[0]] + rest;
      assert own[1..] == rest && [steps[0]][1..] == [];
      assert forall i :: 0 <= i < |rest| ==> own[i + 1] == rest[i];
      assert forall i :: 0 < i < |own| ==> own[i] == rest[i - 1];
    }
  }

  /** The steps of the body up to its terminal write. */
  function OwnBody(w: ActorId, script: W.Script, judgments: seq<bool>, avg: Option<real>): seq<Step> {
    match W.LoopStop(script, 0)
    case Error => [Raise(w)]
    case UsedUp =>
      if !script.rowGone && script.saveRaises then [LeaveLoop(w), Raise(w)]
      else [LeaveLoop(w), Persist(w, judgments, avg), Conclude(w)]
    case Cancel =>
      if !script.rowGone && script.saveRaises then [NoticeCancel(w), Raise(w)]
      else [NoticeCancel(w), Persist(w, judgments, avg), Raise(w)]
  }

  lemma {:induction false} RunTwo(worker: Worker, a: Step, b: Step)
    ensures LocalRun(worker, [a, b]) == Local(Local(worker, a), b)
    ensures Persisted([a, b]) == (if a.Persist? then a.judgments else []) + (if b.Persist? then b.judgments else [])
  {
    assert [a, b][1..] == [b] && [b][1..] == [];
    assert LocalRun(Local(worker, a), [b]) == LocalRun(Local(Local(worker, a), b), [b][1..]);
    assert Persisted([b]) == (if b.Persist? then b.judgments else []) + Persisted([b][1..]);
    assert Persisted([]) == [];
  }

  lemma {:induction false} RunThree(worker: Worker, a: Step, b: Step, c: Step)
    ensures LocalRun(worker, [a, b, c]) == Local(Local(Local(worker, a), b), c)
    ensures !a.Persist? && b.Persist? && !c.Persist? ==> Persisted([a, b, c]) == b.judgments
  {
    assert [a, b, c][1..] == [b, c];
    RunTwo(Local(worker, a), b, c);
  }

  lemma {:induction false} BodyEnds(w: ActorId, r: RunId, script: W.Script, judgments: seq<bool>, avg: Option<real>)
    ensures var own := OwnBody(w, script, judgments, avg);
      && LocalRun(Executing(r), own) == Ending(r, W.Verdict(script))
      && (!script.rowGone || W.LoopStop(script, 0) == W.Error ==>
            && (Persists(own) <==> W.SavesResults(script))
            && Persisted(own) == if W.SavesResults(script) then judgments else [])
  {
    var own := OwnBody(w, script, judgments, avg);
    var leave := if W.LoopStop(script, 0) == W.Cancel then NoticeCancel(w) else LeaveLoop(w);
    if |own| == 1 {
      assert own == [Raise(w)] && own[1..] == [];
    } else if |own| == 2 {
      RunTwo(Executing(r), leave, Raise(w));
      assert own == [leave, Raise(w)];
    } else {
      var close := if W.LoopStop(script, 0) == W.Cancel then Raise(w) else Conclude(w);
      RunThree(Executing(r), leave, Persist(w, judgments, avg), close);
      assert own == [leave, Persist(w, judgments, avg), close];
      assert own[1].Persist?;
    }
  }

  /** The worker's body among all the other actors, whatever they do between its steps: sweeps, cancels,
      pins, beats, other workers, deletions. When it comes to its terminal write the worker holds the
      verdict its specification gives; the write takes effect unless the run failed meanwhile; and if
      the row is still there, it has the results exactly if the specification says so. */
  lemma {:induction false} InterleavedBody(s: State, steps: seq<Step>, w: ActorId, script: W.Script,
                                           judgments: seq<bool>, avg: Option<real>)
    requires Inv(s) && w in s.workers && s.workers[w].Executing? && Legal(s, steps)
    requires OwnSteps(steps, w) == OwnBody(w, script, judgments, avg)
    requires script.rowGone && W.LoopStop(script, 0) != W.Error ==> s.workers[w].run !in After(s, steps).runs
    ensures var r, last := s.workers[w].run, After(s, steps);
      && Enabled(last, TerminalWrite(w))
      && var end := Apply(last, TerminalWrite(w));
      && w in end.workers && end.workers[w] == Finished(r)
      && (r in end.runs <==> r in last.runs)
      && (r in end.runs ==> r in s.runs && RowEndsAs(last.runs[r].(judgments := s.runs[r].judgments), end.runs[r],
                                                     W.Verdict(script), W.SavesResults(script), judgments))
  {
    var r, last := s.workers[w].run, After(s, steps);
    LocalPath(s, steps, w);
    ResultsPath(s, steps, w);
    BodyEnds(w, r, script, judgments, avg);
    assert WorkerOk(s, s.workers[w]);
    AppliesTable(last, TerminalWrite(w));
    if r in last.runs {
      JudgmentsStay(last, TerminalWrite(w), r);
      assert s.runs[r].judgments + [] == s.runs[r].judgments;
    }
  }
}
