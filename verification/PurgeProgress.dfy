/**
 No job is stranded, whatever reconciliation decides. The schedule is a game: the clock, the scheduler and, where the
 job waits for the Owner or for its folder, the Owner make moves; reconciliation answers with any outcome the worker
 procedures allow, which for a deletion group depends on its items and on the provider.
 */
module PurgeProgress {
  import opened Common
  import opened JobRows
  import J = JobSteps
  import L = JobLeases
  import P = JobProgress
  import opened PurgeMachine
  import PurgeSafety
  import DeletionRows

  // ----- invariant -----

  lemma PlacedNext(s: State, s': State)
    requires Next(s, s') && P.AllPlaced(s.js)
    ensures P.AllPlaced(s'.js)
  {
    var step :| Stepped(s, step, s');
    if EngineStep(s, step).Some? {
      P.PlacedStep(s.js, EngineStep(s, step).value);
    }
  }

  /** Every reachable (action, status) is terminal, interrupted, or a waiting status. */
  lemma {:induction false} PlacedOverRuns(run: seq<State>, k: nat)
    requires |run| > 0 && Init(run[0]) && IsRun(run) && k < |run|
    ensures P.AllPlaced(run[k].js)
  {
    if k > 0 {
      PlacedOverRuns(run, k - 1);
      assert StepAt(run, k - 1);
      PlacedNext(run[k - 1], run[k]);
    }
  }

  // ----- the game -----

  predicate Suspended(s: J.State, j: Job) {
    J.Local(j.action) && J.Interrupted(j.action, j.status) && j.vault in s.offline
  }

  /** Moves on the job's behalf: time, the scheduler, and the Owner only where the job waits for the Owner. */
  predicate Offered(s: State, step: Step, id: JobId)
    requires id in s.js.jobs
  {
    var j := s.js.jobs[id];
    && step.Job?
    && (|| step.step.Tick? || step.step.Claim? || step.step.ClaimGroup?
        || (step.step.Approve? && j.status == PendingApproval)
        || (step.step.SetPolicy? && !UploadAllowed(j, s.js.policy))
        || (step.step.SetAccess? && step.step.online && Suspended(s.js, j)))
  }

  /** Decisions reconciliation may take about the job. */
  predicate Decides(s: State, step: Step, id: JobId)
    requires id in s.js.jobs
  {
    var j := s.js.jobs[id];
    || (step.Job? && step.step.Reconcile? && step.step.id == id
        && J.Reconcilable(s.js, j) && J.MayDecide(j, step.step.status))
    || (step.ReconcileItems? && InGroup(j, step.vault, step.group)
        && J.GroupReconcilable(s.js.jobs, s.js.now, step.vault, step.group))
  }

  predicate Handled(s: State, id: JobId) {
    id in s.js.jobs && (Terminal(s.js.jobs[id].status) || LiveLease(s.js.jobs[id], s.js.now))
  }

  /** Within `n` moves the job has ended or is in a worker's hands. */
  ghost predicate Settles(s: State, id: JobId, n: nat)
    decreases n, 0
  {
    id in s.js.jobs && (Handled(s, id) || (n > 0 && (Moves(s, id, n - 1) || Answers(s, id, n - 1))))
  }

  ghost predicate Leads(s: State, step: Step, id: JobId, n: nat)
    decreases n, 1
  {
    Enabled(s, step) && Settles(Apply(s, step), id, n)
  }

  /** Some move leads on. */
  ghost predicate Moves(s: State, id: JobId, n: nat)
    requires id in s.js.jobs
    decreases n, 2
  {
    exists step :: Offered(s, step, id) && Leads(s, step, id, n)
  }

  /** Reconciliation has to decide, and every decision leads on. */
  ghost predicate Answers(s: State, id: JobId, n: nat)
    requires id in s.js.jobs
    decreases n, 2
  {
    (exists step :: Decides(s, step, id)) && forall step | Decides(s, step, id) :: Leads(s, step, id, n)
  }

  lemma {:induction false} Longer(s: State, id: JobId, n: nat)
    requires Settles(s, id, n)
    ensures Settles(s, id, n + 1)
    decreases n, 0
  {
    if !Handled(s, id) {
      if Moves(s, id, n - 1) {
        MovesLonger(s, id, n - 1);
      } else {
        AnswersLonger(s, id, n - 1);
      }
    }
  }

  lemma {:induction false} LeadsLonger(s: State, step: Step, id: JobId, n: nat)
    requires Leads(s, step, id, n)
    ensures Leads(s, step, id, n + 1)
    decreases n, 1
  {
    Longer(Apply(s, step), id, n);
  }

  lemma {:induction false} MovesLonger(s: State, id: JobId, n: nat)
    requires id in s.js.jobs && Moves(s, id, n)
    ensures Moves(s, id, n + 1)
    decreases n, 2
  {
    var step :| Offered(s, step, id) && Leads(s, step, id, n);
    LeadsLonger(s, step, id, n);
  }

  lemma {:induction false} AnswersLonger(s: State, id: JobId, n: nat)
    requires id in s.js.jobs && Answers(s, id, n)
    ensures Answers(s, id, n + 1)
    decreases n, 2
  {
    forall step | Decides(s, step, id) ensures Leads(s, step, id, n + 1) {
      LeadsLonger(s, step, id, n);
    }
  }

  lemma MoveSettles(s: State, step: Step, id: JobId, n: nat)
    requires id in s.js.jobs && Offered(s, step, id) && Enabled(s, step) && Settles(Apply(s, step), id, n)
    ensures Settles(s, id, n + 1)
  {
    assert Leads(s, step, id, n);
    assert Moves(s, id, n);
  }

  lemma AnswersSettle(s: State, step: Step, id: JobId, n: nat)
    requires id in s.js.jobs && Decides(s, step, id) && forall step | Decides(s, step, id) :: Leads(s, step, id, n)
    ensures Settles(s, id, n + 1)
  {
    assert Answers(s, id, n);
  }

  // ----- ordinary jobs -----

  lemma ClaimSettles(s: State, id: JobId)
    requires id in s.js.jobs && P.RowReady(s.js.jobs[id], s.js.now, s.js.poll)
    requires UploadAllowed(s.js.jobs[id], s.js.policy)
    ensures Settles(s, id, 1)
  {
    var t := P.FreshToken(s.js.used);
    P.ClaimLeases(s.js, id, t);
    MoveSettles(s, Step.Job(J.Claim(id, t)), id, 0);
  }

  lemma ReadySettles(s: State, id: JobId)
    requires id in s.js.jobs && P.RowReady(s.js.jobs[id], s.js.now, s.js.poll)
    ensures Settles(s, id, 2)
  {
    if UploadAllowed(s.js.jobs[id], s.js.policy) {
      ClaimSettles(s, id);
      Longer(s, id, 1);
    } else {
      var allow := J.SetPolicy(s.js.jobs[id].vault, true);
      J.RowAfter(s.js, allow, id);
      ClaimSettles(Apply(s, Step.Job(allow)), id);
      MoveSettles(s, Step.Job(allow), id, 1);
    }
  }

  lemma DecisionSettles(s: State, id: JobId, step: Step)
    requires P.Quiet(s.js) && id in s.js.jobs && J.Reconcilable(s.js, s.js.jobs[id]) && Decides(s, step, id)
    ensures Enabled(s, step) && Settles(Apply(s, step), id, 2)
  {
    var s' := Apply(s, step);
    P.DecidedRow(s.js, id, step.step.status);
    assert s'.js == J.Apply(s.js, step.step);
    if Terminal(s'.js.jobs[id].status) {
      assert Handled(s', id);
    } else {
      ReadySettles(s', id);
    }
  }

  lemma InterruptedSettles(s: State, id: JobId)
    requires P.Quiet(s.js) && id in s.js.jobs && J.Reconcilable(s.js, s.js.jobs[id])
    ensures Settles(s, id, 3)
  {
    forall step | Decides(s, step, id) ensures Leads(s, step, id, 2) {
      DecisionSettles(s, id, step);
    }
    AnswersSettle(s, Step.Job(J.Reconcile(id, Failed)), id, 2);
  }

  lemma SuspendedSettles(s: State, id: JobId)
    requires P.Quiet(s.js) && id in s.js.jobs && Suspended(s.js, s.js.jobs[id])
    ensures Settles(s, id, 4)
  {
    var mount := J.SetAccess(s.js.jobs[id].vault, true);
    var s' := Apply(s, Step.Job(mount));
    assert s'.js.jobs == s.js.jobs;
    InterruptedSettles(s', id);
    MoveSettles(s, Step.Job(mount), id, 3);
  }

  lemma RowSettles(s: State, id: JobId)
    requires P.Quiet(s.js) && P.AllPlaced(s.js) && id in s.js.jobs && !Terminal(s.js.jobs[id].status)
    requires s.js.jobs[id].action != CloudPurge
    ensures Settles(s, id, 4)
  {
    var j := s.js.jobs[id];
    assert P.Placed(j);
    if J.Interrupted(j.action, j.status) {
      if Suspended(s.js, j) {
        SuspendedSettles(s, id);
      } else {
        InterruptedSettles(s, id);
        Longer(s, id, 3);
      }
    } else if j.status == PendingApproval {
      var approve := J.Approve(j.vault, j.group.value);
      P.ApprovedRow(s.js, id);
      ReadySettles(Apply(s, Step.Job(approve)), id);
      MoveSettles(s, Step.Job(approve), id, 2);
      Longer(s, id, 3);
    } else {
      ReadySettles(s, id);
      Longer(s, id, 2);
      Longer(s, id, 3);
    }
  }

  // ----- deletions -----

  lemma GroupClaimSettles(s: State, id: JobId)
    requires id in s.js.jobs && id in GroupClaim(s.js.jobs, s.js.now, id)
    ensures Settles(s, id, 1)
  {
    var t := P.FreshToken(s.js.used);
    P.GroupClaimLeases(s.js, id, t);
    MoveSettles(s, Step.Job(J.ClaimGroup(id, t)), id, 0);
  }

  /** A recorded failure or an unreadable provider ends the group; otherwise its members can be claimed. */
  lemma GroupDecisionSettles(s: State, id: JobId, step: Step)
    requires P.Quiet(s.js) && P.AllPlaced(s.js) && L.GroupsOk(s.js) && id in s.js.jobs
    requires s.js.jobs[id].action == CloudPurge && !Terminal(s.js.jobs[id].status)
    requires s.js.jobs[id].status != PendingDelay && Decides(s, step, id)
    ensures Enabled(s, step) && Settles(Apply(s, step), id, 1)
  {
    var j, s' := s.js.jobs[id], Apply(s, step);
    P.GroupDecided(s.js, id, Ends(s, j.vault, j.group.value, step.unreadable));
    assert s'.js == J.Apply(s.js,
      J.ReconcileGroup(j.vault, j.group.value, Ends(s, j.vault, j.group.value, step.unreadable)));
    if Terminal(s'.js.jobs[id].status) {
      assert Handled(s', id);
    } else {
      GroupClaimSettles(s', id);
    }
  }

  lemma GroupSettles(s: State, id: JobId)
    requires P.Quiet(s.js) && P.AllPlaced(s.js) && L.GroupsOk(s.js) && id in s.js.jobs
    requires s.js.jobs[id].action == CloudPurge && !Terminal(s.js.jobs[id].status)
    ensures Settles(s, id, 2)
  {
    var j := s.js.jobs[id];
    assert P.Placed(j);
    if j.status == PendingDelay {
      P.WaitingGroupDue(s.js, id);
      GroupClaimSettles(s, id);
      Longer(s, id, 1);
    } else {
      P.QuietGroupReconcilable(s.js, id);
      forall step | Decides(s, step, id) ensures Leads(s, step, id, 1) {
        GroupDecisionSettles(s, id, step);
      }
      AnswersSettle(s, ReconcileItems(j.vault, j.group.value, true), id, 1);
    }
  }

  // ----- every job -----

  lemma QuietSettles(s: State, id: JobId)
    requires P.Quiet(s.js) && P.AllPlaced(s.js) && L.GroupsOk(s.js)
    requires id in s.js.jobs && !Terminal(s.js.jobs[id].status)
    ensures Settles(s, id, 4)
  {
    if s.js.jobs[id].action == CloudPurge {
      GroupSettles(s, id);
      Longer(s, id, 2);
      Longer(s, id, 3);
    } else {
      RowSettles(s, id);
    }
  }

  lemma TickSettles(s: State, id: JobId)
    requires P.AllPlaced(s.js) && L.GroupsOk(s.js) && id in s.js.jobs && !Terminal(s.js.jobs[id].status)
    ensures Settles(s, id, 5)
  {
    var dt := P.WaitLongEnough(s.js);
    L.GroupsKept(s.js, J.Tick(dt));
    P.PlacedStep(s.js, J.Tick(dt));
    QuietSettles(Apply(s, Step.Job(J.Tick(dt))), id);
    MoveSettles(s, Step.Job(J.Tick(dt)), id, 4);
  }

  /**
   In every reachable state of the engine with its deletions, every unfinished job rests in a status that
   somebody advances, and within five moves it has ended or is in a worker's hands, for every decision
   reconciliation may take on the way.
   */
  lemma NoJobStranded(run: seq<State>, k: nat, id: JobId)
    requires |run| > 0 && Init(run[0]) && IsRun(run) && k < |run|
    requires id in run[k].js.jobs && !Terminal(run[k].js.jobs[id].status)
    ensures P.Placed(run[k].js.jobs[id])
    ensures Settles(run[k], id, 5)
  {
    PlacedOverRuns(run, k);
    PurgeSafety.SafeOverRuns(run, k);
    TickSettles(run[k], id);
  }

  // ----- decisions that end a job -----

  /** An interrupted storage-class change outside a vault move is never resumed. */
  lemma StorageClassIsNotRepeated(s: State, id: JobId, step: Step)
    requires id in s.js.jobs && s.js.jobs[id].action == StorageClass && !s.js.jobs[id].move
    requires Decides(s, step, id)
    ensures id in Apply(s, step).js.jobs && Terminal(Apply(s, step).js.jobs[id].status)
  {
    J.RowAfter(s.js, step.step, id);
  }

  lemma StaleMemberFails(s: J.State, v: VaultId, g: string, id: JobId)
    requires id in ActiveMembers(s.jobs, v, g) && s.jobs[id].status == Cleaning
    requires J.GroupReconcilable(s.jobs, s.now, v, g)
    ensures var s' := J.Apply(s, J.ReconcileGroup(v, g, true)); id in s'.jobs && s'.jobs[id].status == Failed
  {
    J.RowAfter(s, J.ReconcileGroup(v, g, true), id);
  }

  /** A recorded failure of any item of a stale group ends every job of it that was being cleaned. */
  lemma FailedItemEndsGroup(s: State, v: VaultId, g: string, unreadable: bool, id: JobId)
    requires exists k | k in Outstanding(s.items, Stale(s, v, g)) :: s.items[k].status == DeletionRows.Errored
    requires id in Stale(s, v, g)
    ensures var s' := Apply(s, ReconcileItems(v, g, unreadable));
      id in s'.js.jobs && s'.js.jobs[id].status == Failed
  {
    assert EngineStep(s, ReconcileItems(v, g, unreadable)) == Some(J.ReconcileGroup(v, g, true));
    StaleMemberFails(s.js, v, g, id);
  }
}
