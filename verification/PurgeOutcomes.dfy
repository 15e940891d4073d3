/**
 What the records of a delayed deletion say: an item is recorded as deleted only after it was sent or found gone, and a
 job is completed only when every target captured for it is recorded as deleted.
 */
module PurgeOutcomes {
  import opened Common
  import opened JobRows
  import J = JobSteps
  import opened DeletionRows
  import opened PurgeMachine
  import opened PurgeSafety

  // ----- recorded deletions -----

  predicate Sent(log: seq<DeleteCall>, t: Target) {
    exists c | c in log :: t in c.targets
  }

  /** What a worker is about to record was in a request. */
  predicate SentByWorkers(s: State) {
    forall w | w in s.workers && s.workers[w].phase.Called? ::
      forall k | k in s.workers[w].phase.sent && k in s.items :: Sent(s.log, s.items[k].target)
  }

  lemma SentStays(log: seq<DeleteCall>, more: seq<DeleteCall>, t: Target)
    requires Sent(log, t)
    ensures Sent(log + more, t)
  {
    var c :| c in log && t in c.targets;
    assert c in log + more;
  }

  lemma LogGrows(s: State, step: Step, t: Target)
    requires Enabled(s, step) && Sent(s.log, t)
    ensures Sent(NextLog(s, step), t)
  {
    if step.Call? {
      SentStays(s.log, [NextLog(s, step)[|s.log|]], t);
      assert NextLog(s, step) == s.log + [NextLog(s, step)[|s.log|]];
    }
  }

  lemma JustSent(s: State, step: Step, k: ItemKey)
    requires Enabled(s, step) && step.Call? && k in s.workers[step.w].phase.batch && k in s.items
    ensures Sent(NextLog(s, step), s.items[k].target)
  {
    var c := NextLog(s, step)[|s.log|];
    assert c in NextLog(s, step) && s.items[k].target in c.targets;
  }

  lemma CalledWorker(s: State, step: Step, w: nat)
    requires Enabled(s, step) && w in NextWorkers(s, step) && NextWorkers(s, step)[w].phase.Called?
    ensures w in s.workers
    ensures NextWorkers(s, step)[w] == s.workers[w]
      || (step.Call? && step.w == w && NextWorkers(s, step)[w].phase.sent == s.workers[w].phase.batch)
  {
  }

  lemma SentByWorkersStep(s: State, step: Step, s': State)
    requires Stepped(s, step, s') && Safe(s) && SentByWorkers(s)
    ensures SentByWorkers(s')
  {
    forall w, k | w in s'.workers && s'.workers[w].phase.Called? && k in s'.workers[w].phase.sent && k in s'.items
      ensures Sent(s'.log, s'.items[k].target)
    {
      SentByWorkerStep(s, step, s', w, k);
    }
  }

  lemma SentByWorkerStep(s: State, step: Step, s': State, w: nat, k: ItemKey)
    requires Stepped(s, step, s') && Safe(s) && SentByWorkers(s)
    requires w in s'.workers && s'.workers[w].phase.Called? && k in s'.workers[w].phase.sent && k in s'.items
    ensures Sent(s'.log, s'.items[k].target)
  {
    StepGrows(s, step, s');
    CalledWorker(s, step, w);
    assert WorkerOk(s, s.workers[w]) && k in s.items;
    if s'.workers[w] == s.workers[w] {
      LogGrows(s, step, s.items[k].target);
    } else {
      JustSent(s, step, k);
    }
  }

  lemma SentByWorkersNext(s: State, s': State)
    requires Next(s, s') && Safe(s) && SentByWorkers(s)
    ensures SentByWorkers(s')
  {
    var step :| Stepped(s, step, s');
    SentByWorkersStep(s, step, s');
  }

  lemma {:induction false} SentByWorkersOverRuns(run: seq<State>, n: nat)
    requires |run| > 0 && Init(run[0]) && IsRun(run) && n < |run|
    ensures SentByWorkers(run[n])
  {
    if n > 0 {
      SentByWorkersOverRuns(run, n - 1);
      SentByWorkersThen(run, n - 1);
    }
  }

  lemma SentByWorkersThen(run: seq<State>, n: nat)
    requires |run| > 0 && Init(run[0]) && IsRun(run) && n + 1 < |run| && SentByWorkers(run[n])
    ensures SentByWorkers(run[n + 1])
  {
    SafeOverRuns(run, n);
    assert StepAt(run, n);
    SentByWorkersNext(run[n], run[n + 1]);
  }

  /** The item is recorded as deleted. */
  predicate IsDeleted(s: State, k: ItemKey) {
    k in s.items && s.items[k].status == Deleted
  }

  lemma CapturedPending(s: State, step: Step, k: ItemKey)
    requires Enabled(s, step) && step.Admit? && k in NextItems(s, step)
    ensures k in Capture(s, step.rows) ==> NextItems(s, step)[k].status == Pending
    ensures k !in Capture(s, step.rows) ==> k in s.items && NextItems(s, step)[k] == s.items[k]
  {
  }

  lemma NewlyDeleted(s: State, step: Step, s': State, k: ItemKey)
    requires Stepped(s, step, s') && Safe(s) && IsDeleted(s', k) && !IsDeleted(s, k)
    ensures k in s.items && k in Recorded(s, step)
  {
    if step.Admit? {
      CapturedPending(s, step, k);
    } else {
      TargetsFixed(s, step);
      OnlyRecorded(s, step, k);
    }
  }

  lemma RecordedWhy(s: State, step: Step, k: ItemKey)
    requires Enabled(s, step) && SentByWorkers(s) && k in s.items && k in Recorded(s, step)
    ensures Sent(s.log, s.items[k].target) || s.items[k].target !in s.cloud
  {
  }

  lemma DeletedWhy(s: State, s': State, k: ItemKey)
    requires Next(s, s') && Safe(s) && SentByWorkers(s) && IsDeleted(s', k)
    ensures k in s.items && s'.items[k].target == s.items[k].target
    ensures IsDeleted(s, k) || Sent(s.log, s.items[k].target) || s.items[k].target !in s.cloud
  {
    var step :| Stepped(s, step, s');
    StepGrows(s, step, s');
    if !IsDeleted(s, k) {
      NewlyDeleted(s, step, s', k);
      RecordedWhy(s, step, k);
    }
  }

  lemma SentRemains(s: State, s': State, t: Target)
    requires Next(s, s') && Sent(s.log, t)
    ensures Sent(s'.log, t)
  {
    var step :| Stepped(s, step, s');
    LogGrows(s, step, t);
  }

  /** The provider did not hold the object at some earlier moment. */
  ghost predicate FoundGone(run: seq<State>, n: nat, t: Target)
    requires n <= |run|
  {
    exists i: nat :: i < n && t !in run[i].cloud
  }

  lemma DeletedThen(run: seq<State>, n: nat, k: ItemKey)
    requires |run| > 0 && Init(run[0]) && IsRun(run) && n + 1 < |run| && IsDeleted(run[n + 1], k)
    ensures k in run[n].items && run[n + 1].items[k].target == run[n].items[k].target
    ensures IsDeleted(run[n], k) || Sent(run[n].log, run[n].items[k].target) || run[n].items[k].target !in run[n].cloud
    ensures Sent(run[n].log, run[n].items[k].target) ==> Sent(run[n + 1].log, run[n].items[k].target)
  {
    SafeOverRuns(run, n);
    SentByWorkersOverRuns(run, n);
    assert StepAt(run, n);
    DeletedWhy(run[n], run[n + 1], k);
    if Sent(run[n].log, run[n].items[k].target) { SentRemains(run[n], run[n + 1], run[n].items[k].target); }
  }

  /** An item is recorded as deleted only after its target was in a request, or the provider no longer held it. */
  lemma {:induction false} DeletedWasSentOrGone(run: seq<State>, n: nat, k: ItemKey)
    requires |run| > 0 && Init(run[0]) && IsRun(run) && n < |run| && IsDeleted(run[n], k)
    ensures Sent(run[n].log, run[n].items[k].target) || FoundGone(run, n, run[n].items[k].target)
  {
    if n > 0 {
      DeletedThen(run, n - 1, k);
      if IsDeleted(run[n - 1], k) {
        DeletedWasSentOrGone(run, n - 1, k);
      }
    }
  }

  // ----- completed jobs -----

  predicate IsCompleted(s: State, id: JobId) {
    id in s.js.jobs && s.js.jobs[id].action == CloudPurge && s.js.jobs[id].status == Completed
  }

  /** Something was captured for the job, and all of it is recorded as deleted. */
  ghost predicate AllDeleted(items: Items, id: JobId) {
    (exists k :: k in items && k.job == id) && forall k | k in items && k.job == id :: items[k].status == Deleted
  }

  ghost predicate CompletedIsDeleted(s: State) {
    forall id | IsCompleted(s, id) :: AllDeleted(s.items, id)
  }

  /** Only the finalization of its group completes a deletion, for exactly the jobs whose targets are all gone. */
  lemma NewlyCompleted(js: J.State, e: J.Step, id: JobId)
    requires id in js.jobs && js.jobs[id].action == CloudPurge && js.jobs[id].status != Completed
    requires J.After(js, e, id).status == Completed
    ensures e.FinalizePurge? && id in e.done && id in e.expected
  {
  }

  lemma FinishedInColumns(items: Items, jobs: set<JobId>, id: JobId)
    ensures id in FullyDeleted(items, jobs) <==> id in jobs && AllDeleted(items, id)
  {
    assert forall k :: k in JobItems(items, id) <==> k in items && k.job == id;
  }

  /** Items of a completed job stay deleted: nobody records anything for a job that is not being cleaned. */
  lemma DeletedStays(s: State, step: Step, k: ItemKey)
    requires Enabled(s, step) && Safe(s) && IsDeleted(s, k) && IsCompleted(s, k.job)
    ensures k in NextItems(s, step) && NextItems(s, step)[k].status == Deleted
  {
    if step.Admit? {
      CaptureIsNew(s, step, k);
    } else if step.Record? {
      if StillHeld(s, s.workers[step.w]) { NothingHeldIsCompleted(s, s.workers[step.w], k); }
    } else {
      OthersSpare(s, step, k);
    }
  }

  lemma NothingHeldIsCompleted(s: State, wk: Worker, k: ItemKey)
    requires WorkerOk(s, wk) && wk.phase.Called? && StillHeld(s, wk) && IsCompleted(s, k.job)
    ensures k !in wk.phase.sent
  {
    assert forall id | id in wk.expected :: s.js.jobs[id].status == Cleaning;
  }

  lemma OthersSpare(s: State, step: Step, k: ItemKey)
    requires Enabled(s, step) && !step.Admit? && !step.Record? && IsDeleted(s, k)
    ensures k in NextItems(s, step) && NextItems(s, step)[k].status == Deleted
  {
  }

  lemma NoItemsForOld(s: State, step: Step, k: ItemKey)
    requires Enabled(s, step) && Safe(s) && k in NextItems(s, step) && k.job in s.js.jobs
    ensures k in s.items
  {
    if step.Admit? {
      if k in Capture(s, step.rows) { CapturedRow(s, step.rows, k); }
    } else {
      TargetsFixed(s, step);
    }
  }

  lemma StillAllDeleted(s: State, step: Step, s': State, id: JobId)
    requires Stepped(s, step, s') && Safe(s) && IsCompleted(s, id) && AllDeleted(s.items, id)
    ensures AllDeleted(s'.items, id)
  {
    var some :| some in s.items && some.job == id;
    DeletedStays(s, step, some);
    forall k | k in s'.items && k.job == id ensures s'.items[k].status == Deleted {
      NoItemsForOld(s, step, k);
      DeletedStays(s, step, k);
    }
  }

  lemma JustCompleted(s: State, step: Step, s': State, id: JobId)
    requires Stepped(s, step, s') && id in s.js.jobs && !IsCompleted(s, id) && IsCompleted(s', id)
    ensures s'.items == s.items && AllDeleted(s.items, id)
  {
    EngineMoves(s, step, s');
    JobKept(s, step, s', id);
    var e := EngineStep(s, step).value;
    J.RowAfter(s.js, e, id);
    NewlyCompleted(s.js, e, id);
    assert step.Finish?;
    FinishedInColumns(s.items, s.workers[step.w].expected, id);
  }

  lemma CompletedStep(s: State, step: Step, s': State)
    requires Stepped(s, step, s') && Safe(s) && CompletedIsDeleted(s)
    ensures CompletedIsDeleted(s')
  {
    forall id | IsCompleted(s', id) ensures AllDeleted(s'.items, id) {
      if id !in s.js.jobs {
        NewDeletionRow(s, step, s', id);
        assert false;
      } else if IsCompleted(s, id) {
        StillAllDeleted(s, step, s', id);
      } else {
        JustCompleted(s, step, s', id);
      }
    }
  }

  lemma CompletedNext(s: State, s': State)
    requires Next(s, s') && Safe(s) && CompletedIsDeleted(s)
    ensures CompletedIsDeleted(s')
  {
    var step :| Stepped(s, step, s');
    CompletedStep(s, step, s');
  }

  /** In every reachable state a completed deletion job has captured targets, all of them recorded as deleted. */
  lemma {:induction false} CompletedMeansDeleted(run: seq<State>, n: nat)
    requires |run| > 0 && Init(run[0]) && IsRun(run) && n < |run|
    ensures CompletedIsDeleted(run[n])
  {
    if n > 0 {
      CompletedMeansDeleted(run, n - 1);
      SafeOverRuns(run, n - 1);
      assert StepAt(run, n - 1);
      CompletedNext(run[n - 1], run[n]);
    }
  }

  /** A finished group leaves no job open: those whose targets are all gone are completed, the others have failed. */
  lemma FinishDecides(s: State, w: nat, s': State, id: JobId)
    requires Stepped(s, Finish(w), s') && StillHeld(s, s.workers[w]) && id in s.workers[w].expected
    ensures id in s'.js.jobs && s'.js.jobs[id].token.None?
    ensures s'.js.jobs[id].status == if AllDeleted(s.items, id) then Completed else Failed
  {
    var wk := s.workers[w];
    EngineMoves(s, Finish(w), s');
    FinishedInColumns(s.items, wk.expected, id);
    J.RowAfter(s.js, EngineStep(s, Finish(w)).value, id);
  }
}
