/**
 Where a job may rest while nobody holds its lease, and what makes such a job ready to be claimed again.
 */
module JobProgress {
  import opened Common
  import opened JobRows
  import opened JobSteps
  import opened JobLeases

  /** The (action, status) pairs a job may rest in while nobody holds its lease. */
  predicate Placed(j: Job) {
    && j.group.Some? && (j.action == CloudPurge ==> j.group.value != "")
    && (|| Terminal(j.status) || Interrupted(j.action, j.status) || j.status == Queued
        || (j.status == Retrying && (j.action == Upload || j.action == Recover || j.action == StorageClass))
        || (j.status == PendingDelay && j.action == CloudPurge && j.pendingUntil.Some?)
        || (j.status == PendingApproval && j.action == Recover)
        || (j.status == Restoring && (j.action == Recover || j.action == StorageClass)))
  }

  predicate AllPlaced(s: State) {
    forall id | id in s.jobs :: Placed(s.jobs[id])
  }

  lemma PlacedRow(s: State, step: Step, id: JobId)
    requires id in s.jobs && Placed(s.jobs[id])
    ensures Placed(After(s, step, id))
  {
  }

  lemma PlacedStep(s: State, step: Step)
    requires AllPlaced(s)
    ensures AllPlaced(Apply(s, step))
  {
    forall id | id in Apply(s, step).jobs ensures Placed(Apply(s, step).jobs[id]) {
      if id in s.jobs { RowAfter(s, step, id); PlacedRow(s, step, id); } else { RowInserted(s, step, id); }
    }
  }

  // ----- waiting -----

  predicate Before(stamp: Option<Time>, bound: Time) {
    stamp.Some? ==> stamp.value <= bound
  }

  /** After `bound` every lease in the table has run out and every deadline has passed. */
  predicate Outlives(bound: Time, j: Job) {
    Before(j.expiry, bound) && Before(j.pendingUntil, bound) && Before(j.retryAfter, bound) && j.updatedAt <= bound
  }

  lemma {:induction false} EnoughTime(jobs: Jobs) returns (bound: Time)
    ensures forall id | id in jobs :: Outlives(bound, jobs[id])
    decreases |jobs|
  {
    if jobs == map[] { return 0; }
    var id :| id in jobs;
    var j, rest := jobs[id], jobs - {id};
    assert rest.Keys == jobs.Keys - {id};
    var b := EnoughTime(rest);
    bound := b + j.updatedAt + (if j.expiry.Some? then j.expiry.value else 0)
      + (if j.pendingUntil.Some? then j.pendingUntil.value else 0)
      + (if j.retryAfter.Some? then j.retryAfter.value else 0);
    forall k | k in jobs ensures Outlives(bound, jobs[k]) {
      if k != id { assert k in rest && Outlives(b, rest[k]); }
    }
  }

  lemma {:induction false} FreshToken(used: set<Token>) returns (t: Token)
    ensures forall u | u in used :: u < t
  {
    if used == {} { return 0; }
    var u :| u in used;
    var r := FreshToken(used - {u});
    t := r + u + 1;
    forall w | w in used ensures w < t { if w != u { assert w in used - {u}; } }
  }

  /** Every lease has run out, every deadline has passed and polling is due. */
  predicate Quiet(s: State) {
    forall id | id in s.jobs ::
      && !Leased(s.jobs[id], s.now) && Before(s.jobs[id].pendingUntil, s.now)
      && Before(s.jobs[id].retryAfter, s.now) && s.jobs[id].updatedAt + s.poll <= s.now
  }

  lemma WaitLongEnough(s: State) returns (dt: nat)
    ensures Quiet(Apply(s, Tick(dt))) && Apply(s, Tick(dt)).jobs == s.jobs && Apply(s, Tick(dt)).policy == s.policy
    ensures Apply(s, Tick(dt)).used == s.used
  {
    dt := EnoughTime(s.jobs);
    dt := dt + s.poll;
    var s' := Apply(s, Tick(dt));
    assert s'.jobs == s.jobs;
    forall id | id in s'.jobs
      ensures !Leased(s'.jobs[id], s'.now) && Before(s'.jobs[id].pendingUntil, s'.now)
      ensures Before(s'.jobs[id].retryAfter, s'.now) && s'.jobs[id].updatedAt + s'.poll <= s'.now
    {
      assert Outlives(dt - s.poll, s.jobs[id]);
    }
  }

  // ----- rows that are ready, and rows that become so -----

  predicate RowReady(j: Job, now: Time, poll: nat) {
    && j.action != CloudPurge && !Leased(j, now) && Before(j.retryAfter, now)
    && (|| j.status == Queued || j.status == Retrying
        || (j.status == Restoring && (j.action == Recover || j.action == StorageClass) && j.updatedAt + poll <= now))
  }

  /** A ready row whose uploads are allowed is leased by the next claim. */
  lemma ClaimLeases(s: State, id: JobId, t: Token)
    requires id in s.jobs && RowReady(s.jobs[id], s.now, s.poll) && UploadAllowed(s.jobs[id], s.policy)
    ensures var s' := Apply(s, Claim(id, t)); id in s'.jobs && LiveLease(s'.jobs[id], s'.now)
  {
    RowAfter(s, Claim(id, t), id);
  }

  lemma GroupClaimLeases(s: State, id: JobId, t: Token)
    requires id in s.jobs && id in GroupClaim(s.jobs, s.now, id)
    ensures var s' := Apply(s, ClaimGroup(id, t)); id in s'.jobs && LiveLease(s'.jobs[id], s'.now)
  {
    RowAfter(s, ClaimGroup(id, t), id);
  }

  /** Neither reconciliation nor an approval moves the clock or the settings. */
  lemma SettingsStay(s: State, step: Step)
    requires step.Reconcile? || step.Approve?
    ensures var s' := Apply(s, step); s'.policy == s.policy && s'.poll == s.poll && s'.used == s.used && s'.now == s.now
  {
  }

  lemma DecidedAfter(s: State, id: JobId, outcome: Status)
    requires Quiet(s) && id in s.jobs && Reconcilable(s, s.jobs[id]) && MayDecide(s.jobs[id], outcome)
    ensures var j, j' := s.jobs[id], After(s, Reconcile(id, outcome), id);
      && (Terminal(j'.status) || RowReady(j', s.now, s.poll))
      && UploadAllowed(j', s.policy) == UploadAllowed(j, s.policy) && j'.vault == j.vault
  {
  }

  /** The statuses the worker of each action may write. */
  predicate InWriteTable(a: Action, status: Status) {
    match a
    case Upload => status in {Queued, Retrying, Uploading, Verifying, Completed, Failed, Cancelled}
    case Rename => status in {Queued, Uploading, Verifying, Cleaning, Completed, Failed, Cancelled}
    case Recover => status in {Queued, Retrying, Restoring, Downloading, Verifying, Completed, Failed, Cancelled}
    case FreeSpace => status in {Queued, Cleaning, Completed, Failed, Cancelled}
    case StorageClass => status in {Queued, Retrying, Restoring, Uploading, Completed, Failed, Cancelled}
    case CloudPurge => status in {Queued, Failed, Cancelled}
  }

  /** A worker moves exactly the job it holds, to exactly these statuses. */
  lemma WriteTable(s: State, id: JobId, t: Token, status: Status)
    requires id in s.jobs
    ensures var j, j' := s.jobs[id], After(s, SetStatus(id, t, status), id);
      if InWriteTable(j.action, status) && j.token == Some(t) && j.expiry != None && j.expiry.value > s.now
        && j.status !in {Completed, Failed, Cancelled}
      then j'.status == status && j'.updatedAt == s.now else j' == j
  {
  }

  /** The interrupted statuses of each action, with what reconciliation may make of them. */
  predicate InTable(j: Job, outcome: Status) {
    match j.action
    case Upload => j.status in {Uploading, Verifying} && outcome in {Queued, Failed}
    case Rename => j.status in {Uploading, Verifying, Cleaning} && outcome in {Queued, Failed}
    case Recover => j.status in {Downloading, Verifying} && outcome in {Queued, Completed, Failed}
    case FreeSpace => j.status == Cleaning && outcome in {Queued, Completed, Failed}
    case StorageClass => j.status == Uploading && outcome in (if j.move then {Queued, Failed} else {Completed, Failed})
    case CloudPurge => false
  }

  /** Reconciliation moves exactly the interrupted jobs that nobody holds and whose folder is there. */
  lemma DecisionTable(s: State, id: JobId, outcome: Status)
    requires id in s.jobs
    ensures var j := s.jobs[id];
      After(s, Reconcile(id, outcome), id) ==
        if InTable(j, outcome) && (j.token == None || j.expiry == None || j.expiry.value <= s.now)
          && (j.action == StorageClass || j.vault !in s.offline)
        then j.(status := outcome, token := None, expiry := None, updatedAt := s.now) else j
  {
  }

  /** Whatever reconciliation decides about an interrupted job, the job has ended or is ready. */
  lemma DecidedRow(s: State, id: JobId, outcome: Status)
    requires Quiet(s) && id in s.jobs && Reconcilable(s, s.jobs[id]) && MayDecide(s.jobs[id], outcome)
    ensures var s' := Apply(s, Reconcile(id, outcome));
      && id in s'.jobs && s'.policy == s.policy && s'.poll == s.poll && s'.used == s.used && s'.now == s.now
      && (Terminal(s'.jobs[id].status) || RowReady(s'.jobs[id], s'.now, s'.poll))
      && UploadAllowed(s'.jobs[id], s.policy) == UploadAllowed(s.jobs[id], s.policy)
      && s'.jobs[id].vault == s.jobs[id].vault
  {
    RowAfter(s, Reconcile(id, outcome), id);
    SettingsStay(s, Reconcile(id, outcome));
    DecidedAfter(s, id, outcome);
  }

  lemma ApprovedAfter(s: State, id: JobId)
    requires Quiet(s) && id in s.jobs && Placed(s.jobs[id]) && s.jobs[id].status == PendingApproval
    ensures var j' := After(s, Approve(s.jobs[id].vault, s.jobs[id].group.value), id);
      RowReady(j', s.now, s.poll) && UploadAllowed(j', s.policy)
  {
  }

  /** Approval by the Owner makes a held restore ready. */
  lemma ApprovedRow(s: State, id: JobId)
    requires Quiet(s) && id in s.jobs && Placed(s.jobs[id]) && s.jobs[id].status == PendingApproval
    ensures var s' := Apply(s, Approve(s.jobs[id].vault, s.jobs[id].group.value));
      && id in s'.jobs && s'.policy == s.policy && s'.poll == s.poll && s'.used == s.used
      && RowReady(s'.jobs[id], s'.now, s'.poll) && UploadAllowed(s'.jobs[id], s.policy)
  {
    RowAfter(s, Approve(s.jobs[id].vault, s.jobs[id].group.value), id);
    SettingsStay(s, Approve(s.jobs[id].vault, s.jobs[id].group.value));
    ApprovedAfter(s, id);
  }

  // ----- deletion groups -----

  lemma QuietGroupReconcilable(s: State, id: JobId)
    requires Quiet(s) && AllPlaced(s) && GroupsOk(s) && id in s.jobs && s.jobs[id].action == CloudPurge
    requires !Terminal(s.jobs[id].status) && s.jobs[id].status != PendingDelay
    ensures GroupReconcilable(s.jobs, s.now, s.jobs[id].vault, s.jobs[id].group.value)
  {
    var j := s.jobs[id];
    forall k | k in ActiveMembers(s.jobs, j.vault, j.group.value)
      ensures !Leased(s.jobs[k], s.now) && (s.jobs[k].status == Cleaning || s.jobs[k].status == Queued)
    {
      assert SameGroup(s.jobs[k], j) && PairOk(s.jobs[k], j, s.now);
      assert Placed(s.jobs[k]);
    }
  }

  /** Reconciliation leaves the active members of a reconcilable group queued, whether it resumes or ends it. */
  lemma ReconciledMember(s: State, v: VaultId, g: string, failed: bool, k: JobId)
    requires k in s.jobs && InGroup(s.jobs[k], v, g) && GroupReconcilable(s.jobs, s.now, v, g)
    ensures var j' := After(s, ReconcileGroup(v, g, failed), k);
      && (Terminal(s.jobs[k].status) ==> Terminal(j'.status))
      && (!Terminal(j'.status) ==> j'.status == Queued && !Leased(j', s.now))
  {
    assert !Terminal(s.jobs[k].status) ==> k in ActiveMembers(s.jobs, v, g);
  }

  lemma GroupDecided(s: State, id: JobId, failed: bool)
    requires Quiet(s) && AllPlaced(s) && GroupsOk(s) && id in s.jobs && s.jobs[id].action == CloudPurge
    requires !Terminal(s.jobs[id].status) && s.jobs[id].status != PendingDelay
    ensures var s' := Apply(s, ReconcileGroup(s.jobs[id].vault, s.jobs[id].group.value, failed));
      id in s'.jobs && (Terminal(s'.jobs[id].status) || id in GroupClaim(s'.jobs, s'.now, id))
  {
    var j := s.jobs[id];
    var v, g := j.vault, j.group.value;
    var step := ReconcileGroup(v, g, failed);
    var s' := Apply(s, step);
    QuietGroupReconcilable(s, id);
    RowAfter(s, step, id); IdentityKept(s, step, id); ReconciledMember(s, v, g, failed, id);
    if !Terminal(s'.jobs[id].status) {
      forall k | k in ActiveMembers(s'.jobs, v, g)
        ensures !Leased(s'.jobs[k], s'.now) && PurgeRunnable(s'.jobs[k], s'.now)
      {
        RowAfter(s, step, k); IdentityKept(s, step, k); ReconciledMember(s, v, g, failed, k);
      }
      assert id in ActiveMembers(s'.jobs, v, g);
    }
  }

  lemma WaitingGroupDue(s: State, id: JobId)
    requires Quiet(s) && AllPlaced(s) && GroupsOk(s) && id in s.jobs && s.jobs[id].action == CloudPurge
    requires s.jobs[id].status == PendingDelay
    ensures id in GroupClaim(s.jobs, s.now, id)
  {
    var j := s.jobs[id];
    var v, g := j.vault, j.group.value;
    forall k | k in ActiveMembers(s.jobs, v, g)
      ensures !Leased(s.jobs[k], s.now) && PurgeRunnable(s.jobs[k], s.now)
    {
      assert SameGroup(j, s.jobs[k]) && PairOk(j, s.jobs[k], s.now);
      assert Placed(s.jobs[k]);
    }
    assert id in ActiveMembers(s.jobs, v, g);
  }
}
