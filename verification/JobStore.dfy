/**
 The job table as its callers see it: a mutable map of rows and the conditional updates that
 claim, renew, fence, cancel and reconcile them. Each method is proved to make exactly the
 corresponding step of the job engine.
 */
module JobStore {
  import opened Common
  import opened JobRows
  import opened JobSteps

  lemma SameRows(s: State, step: Step, jobs: Jobs)
    requires Inserted(s, step) == map[] && jobs.Keys == s.jobs.Keys
    requires forall k | k in s.jobs :: jobs[k] == After(s, step, k)
    ensures Apply(s, step).jobs == jobs
  {
  }

  function ClaimedRow(j: Job, token: Token, now: Time): Job {
    j.(status := Cleaning, token := Some(token), expiry := Some(now + LEASE_SECONDS), updatedAt := now)
  }

  /** The steps that write one row, and only if its guard holds. */
  predicate WritesOne(step: Step, id: JobId) {
    || (step.Claim? && step.id == id) || (step.Renew? && step.id == id) || (step.SetStatus? && step.id == id)
    || (step.ScheduleRetry? && step.id == id)
  }

  lemma OneRowStep(s: State, step: Step, id: JobId)
    requires WritesOne(step, id)
    ensures Apply(s, step).jobs == if id in s.jobs then s.jobs[id := After(s, step, id)] else s.jobs
  {
    var jobs := if id in s.jobs then s.jobs[id := After(s, step, id)] else s.jobs;
    forall k | k in s.jobs ensures jobs[k] == After(s, step, k) {
    }
    SameRows(s, step, jobs);
  }

  lemma ClaimedRows(s: State, lead: JobId, token: Token, jobs: Jobs)
    requires jobs.Keys == s.jobs.Keys
    requires forall k | k in s.jobs ::
      jobs[k] == if k in GroupClaim(s.jobs, s.now, lead) then ClaimedRow(s.jobs[k], token, s.now) else s.jobs[k]
    ensures Apply(s, ClaimGroup(lead, token)).jobs == jobs
  {
  }

  lemma ClaimIsStep(s: State, id: JobId, token: Token)
    ensures Apply(s, Claim(id, token)).jobs ==
      if id in s.jobs && s.jobs[id].action != CloudPurge && Claimable(s.jobs, s.policy, s.now, s.poll, id)
      then s.jobs[id := s.jobs[id].(token := Some(token), expiry := Some(s.now + LEASE_SECONDS))] else s.jobs
  {
    OneRowStep(s, Claim(id, token), id);
    assert id in s.jobs ==> s.jobs[id := s.jobs[id]] == s.jobs;
  }

  function StatusRow(j: Job, status: Status, now: Time): Job {
    if HoldsLease(status) then j.(status := status, updatedAt := now, expiry := Some(now + LEASE_SECONDS))
    else j.(status := status, updatedAt := now, token := None, expiry := None)
  }

  lemma StatusIsStep(s: State, id: JobId, token: Token, status: Status)
    ensures !(id in s.jobs && Owns(s.jobs[id], token, s.now)) ==> Apply(s, SetStatus(id, token, status)).jobs == s.jobs
    ensures id in s.jobs && Owns(s.jobs[id], token, s.now) && WorkerWrites(s.jobs[id].action, status) ==>
      Apply(s, SetStatus(id, token, status)).jobs == s.jobs[id := StatusRow(s.jobs[id], status, s.now)]
  {
    OneRowStep(s, SetStatus(id, token, status), id);
    assert id in s.jobs ==> s.jobs[id := s.jobs[id]] == s.jobs;
  }

  function CancelledRow(j: Job, at: Time): Job {
    Release(j.(status := Cancelled, updatedAt := at))
  }

  /** What cancelling a set of jobs leaves in the job table. */
  function CancelledJobs(jobs: Jobs, ids: set<JobId>, at: Time): Jobs {
    map id | id in jobs :: if id in ids then CancelledRow(jobs[id], at) else jobs[id]
  }

  lemma CancelIsStep(s: State, v: VaultId, g: string)
    ensures Apply(s, CancelPurge(v, g)).jobs ==
      if Cancellable(s.jobs, v, g) then CancelledJobs(s.jobs, Members(s.jobs, v, g), s.now) else s.jobs
  {
    var jobs := if Cancellable(s.jobs, v, g) then CancelledJobs(s.jobs, Members(s.jobs, v, g), s.now) else s.jobs;
    SameRows(s, CancelPurge(v, g), jobs);
  }

  lemma RevokeIsStep(s: State, v: VaultId, g: string)
    ensures Apply(s, RevokePurge(v, g)).jobs == CancelledJobs(s.jobs, ActiveMembers(s.jobs, v, g), s.now)
  {
    SameRows(s, RevokePurge(v, g), CancelledJobs(s.jobs, ActiveMembers(s.jobs, v, g), s.now));
  }

  function Unfinished(jobs: Jobs, v: VaultId, g: string, action: Action): set<JobId> {
    set id | id in jobs && jobs[id].vault == v && jobs[id].group == Some(g) && jobs[id].action == action &&
      !Terminal(jobs[id].status)
  }

  /** A job of the Owner's group that has not ended. */
  predicate InUnfinished(j: Job, v: VaultId, g: string, action: Action) {
    && j.vault == v && j.group == Some(g) && j.action == action
    && j.status != Completed && j.status != Failed && j.status != Cancelled
  }

  lemma UnfinishedInColumns(jobs: Jobs, v: VaultId, g: string, action: Action, at: Time)
    ensures Unfinished(jobs, v, g, action) == set id | id in jobs && InUnfinished(jobs[id], v, g, action)
    ensures forall id | id in jobs ::
      StoppedJobs(jobs, Unfinished(jobs, v, g, action), at)[id] == if InUnfinished(jobs[id], v, g, action)
        then jobs[id].(status := Cancelled, updatedAt := at) else jobs[id]
  {
  }

  /** Stopped jobs keep their claim columns; only the status ends them. */
  function StoppedJobs(jobs: Jobs, ids: set<JobId>, at: Time): Jobs {
    map id | id in jobs :: if id in ids then jobs[id].(status := Cancelled, updatedAt := at) else jobs[id]
  }

  lemma StopOneMore(jobs: Jobs, ids: set<JobId>, id: JobId, at: Time)
    requires id in jobs && id !in ids
    ensures StoppedJobs(jobs, ids, at)[id] == jobs[id]
    ensures StoppedJobs(jobs, ids, at)[id := jobs[id].(status := Cancelled, updatedAt := at)]
         == StoppedJobs(jobs, ids + {id}, at)
  {
  }

  lemma CancelGroupIsStep(s: State, v: VaultId, g: string, action: Action)
    requires action != CloudPurge
    ensures Apply(s, CancelGroup(v, g, action)).jobs == StoppedJobs(s.jobs, Unfinished(s.jobs, v, g, action), s.now)
  {
    SameRows(s, CancelGroup(v, g, action), StoppedJobs(s.jobs, Unfinished(s.jobs, v, g, action), s.now));
  }

  /** An automatic upload without a version, in a Vault that has its automatic uploads switched off. */
  predicate PausedBy(j: Job, policy: map<VaultId, bool>) {
    j.action == Upload && j.origin == Automatic && !j.linked && j.vault in policy && !policy[j.vault]
  }

  /** The row is this worker's: its token, a claim that has not run out, and no last status. */
  predicate IsHeld(j: Job, token: Token, now: Time) {
    && j.token == Some(token) && j.expiry.Some? && j.expiry.value > now
    && j.status != Completed && j.status != Failed && j.status != Cancelled
  }

  /** The row is being cleaned for the group by this worker. */
  predicate IsHeldFor(j: Job, v: VaultId, g: string, token: Token, now: Time) {
    j.action == CloudPurge && j.vault == v && j.group == Some(g) && j.status == Cleaning && IsHeld(j, token, now)
  }

  lemma HeldInColumns(jobs: Jobs, now: Time, v: VaultId, g: string, token: Token)
    ensures HeldMembers(jobs, now, v, g, token) == set id | id in jobs && IsHeldFor(jobs[id], v, g, token, now)
  {
  }

  /** Two unfinished jobs of one deletion group. */
  predicate Peers(jobs: Jobs, lead: JobId, id: JobId)
    requires lead in jobs
  {
    && jobs[lead].action == CloudPurge && jobs[lead].group.Some?
    && id in jobs && jobs[id].action == CloudPurge && jobs[id].vault == jobs[lead].vault
    && jobs[id].group == jobs[lead].group
    && jobs[id].status != Completed && jobs[id].status != Failed && jobs[id].status != Cancelled
  }

  /** Unclaimed, and queued or through with its delay. */
  predicate FreeToClean(j: Job, now: Time) {
    && (j.token.None? || j.expiry.None? || j.expiry.value <= now)
    && (j.status == Queued || (j.status == PendingDelay && j.pendingUntil.Some? && j.pendingUntil.value <= now))
  }

  lemma GroupClaimInColumns(jobs: Jobs, now: Time, lead: JobId)
    ensures forall id :: id in GroupClaim(jobs, now, lead) <==>
      && lead in jobs && jobs[lead].group != Some("") && Peers(jobs, lead, id)
      && forall m | m in jobs && Peers(jobs, lead, m) :: FreeToClean(jobs[m], now)
  {
    if lead in jobs && jobs[lead].action == CloudPurge && jobs[lead].group.Some? {
      var active := ActiveMembers(jobs, jobs[lead].vault, jobs[lead].group.value);
      assert forall id :: id in active <==> Peers(jobs, lead, id);
      forall id | id in jobs
        ensures FreeToClean(jobs[id], now) <==> !Leased(jobs[id], now) && PurgeRunnable(jobs[id], now) {
      }
    }
  }

  class JobTable {
    var jobs: Jobs
    var policy: map<VaultId, bool>
    const poll: nat

    constructor (poll: nat)
      ensures jobs == map[] && policy == map[] && this.poll == poll
    {
      jobs, policy := map[], map[];
      this.poll := poll;
    }

    /** The table as a state of the engine at a given time. */
    ghost function At(now: Time): State
      reads this
    {
      State(now, poll, policy, {}, jobs, {})
    }

    /** The scheduler states a claim may start from, outside deletions. */
    method Runnable(j: Job, now: Time) returns (ok: bool)
      requires j.action != CloudPurge
      ensures ok <==> RunnableStatus(j, now, poll)
    {
      match j.status
      case Queued => ok := true;
      case Retrying => ok := j.retryAfter.None? || j.retryAfter.value <= now;
      case Restoring => ok := (j.action == Recover || j.action == StorageClass) && j.updatedAt + poll <= now;
      case _ => ok := false;
    }

    /**
     Leases one runnable job. Whoever gets it has it alone for the whole lease: no other token owns it and no
     claim of any kind takes it before the lease runs out.
     */
    method ClaimJob(id: JobId, token: Token, now: Time) returns (claimed: bool)
      modifies this`jobs
      ensures claimed <==>
        && id in old(jobs) && var j := old(jobs)[id];
        && j.action != CloudPurge
        && (|| j.status == Queued
            || (j.status == Retrying && (j.retryAfter.Some? ==> j.retryAfter.value <= now))
            || (j.status == Restoring && j.action in {Recover, StorageClass} && j.updatedAt + poll <= now))
        && (j.token.None? || j.expiry.None? || j.expiry.value <= now)
        && !PausedBy(j, policy)
      ensures jobs == if claimed
        then old(jobs)[id := old(jobs)[id].(token := Some(token), expiry := Some(now + 300))] else old(jobs)
      ensures claimed ==> Exclusive(jobs, id, token, now + 300)
      ensures jobs == Apply(old(At(now)), Claim(id, token)).jobs
    {
      ghost var s := At(now);
      claimed := id in jobs && jobs[id].action != CloudPurge;
      if claimed {
        var j := jobs[id];
        var runnable := Runnable(j, now);
        var paused := j.action == Upload && j.origin == Automatic && !j.linked && j.vault in policy && !policy[j.vault];
        var taken := j.token.Some? && j.expiry.Some? && j.expiry.value > now;
        claimed := runnable && !paused && !taken;
        if claimed {
          jobs := jobs[id := j.(token := Some(token), expiry := Some(now + LEASE_SECONDS))];
          LeaseIsExclusive(jobs, id, token, now + LEASE_SECONDS);
        }
      }
      ClaimIsStep(s, id, token);
    }

    /** Looks at the rows one by one and stops at the first that is leased or not yet runnable. */
    method AllFree(rows: set<JobId>, now: Time) returns (free: bool)
      requires rows <= jobs.Keys
      ensures free <==> forall id | id in rows :: !Leased(jobs[id], now) && PurgeRunnable(jobs[id], now)
    {
      var todo := rows;
      while todo != {}
        invariant todo <= rows
        invariant forall id | id in rows - todo :: !Leased(jobs[id], now) && PurgeRunnable(jobs[id], now)
        decreases |todo|
      {
        var id :| id in todo;
        if Leased(jobs[id], now) || !PurgeRunnable(jobs[id], now) { return false; }
        todo := todo - {id};
      }
      return true;
    }

    /** Leases a whole deletion group or nothing. */
    method ClaimPurgeGroup(lead: JobId, token: Token, now: Time) returns (claimed: set<JobId>)
      modifies this`jobs
      ensures forall id :: id in claimed <==>
        && lead in old(jobs) && old(jobs)[lead].group != Some("") && Peers(old(jobs), lead, id)
        && forall m | m in old(jobs) && Peers(old(jobs), lead, m) :: FreeToClean(old(jobs)[m], now)
      ensures jobs.Keys == old(jobs).Keys
      ensures forall id | id in jobs ::
        jobs[id] == if id in claimed then ClaimedRow(old(jobs)[id], token, now) else old(jobs)[id]
      ensures forall id | id in claimed :: Exclusive(jobs, id, token, now + 300)
      ensures jobs == Apply(old(At(now)), ClaimGroup(lead, token)).jobs
    {
      ghost var s := At(now);
      GroupClaimInColumns(jobs, now, lead);
      claimed := {};
      if lead in jobs && jobs[lead].action == CloudPurge && jobs[lead].group.Some? && jobs[lead].group.value != "" {
        var active := ActiveMembers(jobs, jobs[lead].vault, jobs[lead].group.value);
        var free := AllFree(active, now);
        if free {
          claimed := active;
          LeaseRows(active, token, now);
        }
      }
      ClaimedRows(s, lead, token, jobs);
    }

    method LeaseRows(rows: set<JobId>, token: Token, now: Time)
      requires rows <= jobs.Keys
      modifies this`jobs
      ensures jobs.Keys == old(jobs).Keys
      ensures forall id | id in jobs ::
        jobs[id] == if id in rows then ClaimedRow(old(jobs)[id], token, now) else old(jobs)[id]
      ensures forall id | id in rows :: Exclusive(jobs, id, token, now + LEASE_SECONDS)
    {
      jobs := map id | id in jobs :: if id in rows then ClaimedRow(jobs[id], token, now) else jobs[id];
      forall id | id in rows ensures Exclusive(jobs, id, token, now + LEASE_SECONDS) {
        LeaseIsExclusive(jobs, id, token, now + LEASE_SECONDS);
      }
    }

    /** `WHERE claim_token=... AND claim_expires_at > now AND status NOT IN (...)`, column by column. */
    method Matches(id: JobId, token: Token, now: Time) returns (ok: bool)
      ensures ok <==> id in jobs && Owns(jobs[id], token, now)
    {
      if id !in jobs {
        return false;
      }
      var j := jobs[id];
      if j.token.None? || j.token.value != token {
        return false;
      }
      if j.expiry.None? || j.expiry.value <= now {
        return false;
      }
      return j.status != Completed && j.status != Failed && j.status != Cancelled;
    }

    /** A renewed lease is exclusive for its whole new term; a refused owner has lost the job for good. */
    method RenewJobClaim(id: JobId, token: Token, now: Time) returns (renewed: bool)
      modifies this`jobs
      ensures renewed <==> id in old(jobs) && IsHeld(old(jobs)[id], token, now)
      ensures renewed ==> jobs == old(jobs)[id := old(jobs)[id].(expiry := Some(now + 300))]
      ensures renewed ==> Exclusive(jobs, id, token, now + 300)
      ensures !renewed ==> jobs == old(jobs) && Fenced(jobs, id, token, now)
      ensures jobs == Apply(old(At(now)), Renew(id, token)).jobs
    {
      ghost var s := At(now);
      renewed := Matches(id, token, now);
      if renewed {
        jobs := jobs[id := jobs[id].(expiry := Some(now + LEASE_SECONDS))];
        LeaseIsExclusive(jobs, id, token, now + LEASE_SECONDS);
      }
      OneRowStep(s, Renew(id, token), id);
      assert id in s.jobs ==> s.jobs[id := s.jobs[id]] == s.jobs;
    }

    /**
     Renews member after member and then compares: if one of them was lost, or one too many was found, the
     rows already renewed are rolled back.
     */
    method RenewPurgeGroupClaim(v: VaultId, g: string, token: Token, expected: set<JobId>, now: Time)
      returns (held: bool)
      modifies this`jobs
      ensures held <==> expected == set id | id in old(jobs) && IsHeldFor(old(jobs)[id], v, g, token, now)
      ensures held ==> forall id | id in expected :: Exclusive(jobs, id, token, now + 300)
      ensures jobs == if held then RenewedRows(old(jobs), expected, now) else old(jobs)
      ensures jobs == Apply(old(At(now)), RenewGroup(v, g, token, expected)).jobs
    {
      ghost var s := At(now);
      HeldInColumns(jobs, now, v, g, token);
      var savepoint := jobs;
      var renewed := RenewRows(v, g, token, now);
      held := renewed == expected;
      if held {
        forall id | id in expected ensures Exclusive(jobs, id, token, now + LEASE_SECONDS) {
          LeaseIsExclusive(jobs, id, token, now + LEASE_SECONDS);
        }
      } else {
        jobs := savepoint;
      }
      SameRows(s, RenewGroup(v, g, token, expected), jobs);
    }

    method RenewRows(v: VaultId, g: string, token: Token, now: Time) returns (renewed: set<JobId>)
      modifies this`jobs
      ensures renewed == HeldMembers(old(jobs), now, v, g, token)
      ensures jobs == RenewedRows(old(jobs), renewed, now)
    {
      renewed := {};
      var todo := jobs.Keys;
      while todo != {}
        invariant todo <= old(jobs).Keys && renewed !! todo
        invariant forall id | id in old(jobs) && id !in todo ::
          id in renewed <==> id in HeldMembers(old(jobs), now, v, g, token)
        invariant renewed <= old(jobs).Keys
        invariant jobs == RenewedRows(old(jobs), renewed, now)
        decreases |todo|
      {
        var id :| id in todo;
        var j := jobs[id];
        var owned := Matches(id, token, now);
        if owned && j.vault == v && j.group == Some(g) && j.action == CloudPurge && j.status == Cleaning {
          RenewedOne(old(jobs), renewed, id, now);
          jobs := jobs[id := j.(expiry := Some(now + LEASE_SECONDS))];
          renewed := renewed + {id};
        }
        todo := todo - {id};
      }
    }

    /**
     A worker's status change. Afterwards the worker either still has the job alone for a full lease, or has
     let go of it; a worker that had lost the job changes nothing and never owns it again.
     */
    method SetJob(id: JobId, token: Token, status: Status, now: Time) returns (updated: bool)
      modifies this`jobs
      ensures updated <==> id in old(jobs) && IsHeld(old(jobs)[id], token, now)
      ensures updated ==> id in jobs && jobs == old(jobs)[id := jobs[id]]
      ensures updated && status in {Downloading, Uploading, Verifying, Cleaning} ==>
        && jobs[id] == old(jobs)[id].(status := status, updatedAt := now, expiry := Some(now + 300))
        && Exclusive(jobs, id, token, now + 300)
      ensures updated && status !in {Downloading, Uploading, Verifying, Cleaning} ==>
        && jobs[id] == old(jobs)[id].(status := status, updatedAt := now, token := None, expiry := None)
        && forall t :: Fenced(jobs, id, t, now)
      ensures !updated ==> jobs == old(jobs) && Fenced(jobs, id, token, now)
      ensures !updated || WorkerWrites(old(jobs)[id].action, status) ==>
        jobs == Apply(old(At(now)), SetStatus(id, token, status)).jobs
    {
      ghost var s := At(now);
      updated := WriteStatus(id, token, status, now);
      if updated && HoldsLease(status) {
        LeaseIsExclusive(jobs, id, token, now + LEASE_SECONDS);
      }
      StatusIsStep(s, id, token, status);
    }

    method WriteStatus(id: JobId, token: Token, status: Status, now: Time) returns (updated: bool)
      modifies this`jobs
      ensures updated <==> id in old(jobs) && Owns(old(jobs)[id], token, now)
      ensures jobs == if updated then old(jobs)[id := StatusRow(old(jobs)[id], status, now)] else old(jobs)
    {
      updated := Matches(id, token, now);
      if updated {
        var j := jobs[id].(status := status, updatedAt := now);
        if HoldsLease(status) {
          jobs := jobs[id := j.(expiry := Some(now + LEASE_SECONDS))];
        } else {
          jobs := jobs[id := j.(token := None, expiry := None)];
        }
      }
    }

    /** The job is let go of, and cannot be claimed before its retry time but by anybody from then on. */
    method ScheduleUploadRetry(id: JobId, token: Token, retryAfter: Time, now: Time) returns (updated: bool)
      modifies this`jobs
      ensures updated <==> id in old(jobs) && IsHeld(old(jobs)[id], token, now)
      ensures updated ==> jobs == old(jobs)[id := old(jobs)[id].(status := Retrying, retryAfter := Some(retryAfter),
        updatedAt := now, token := None, expiry := None)]
      ensures updated ==> id in jobs && forall t :: Fenced(jobs, id, t, now)
      ensures updated && old(jobs)[id].action != CloudPurge ==>
        forall policy: map<VaultId, bool>, later: Time, poll: nat ::
          Claimable(jobs, policy, later, poll, id) <==> later >= retryAfter && !PausedBy(jobs[id], policy)
      ensures !updated ==> jobs == old(jobs) && Fenced(jobs, id, token, now)
      ensures !updated || old(jobs)[id].action == Upload || old(jobs)[id].action == StorageClass ==>
        jobs == Apply(old(At(now)), ScheduleRetry(id, token, retryAfter)).jobs
    {
      ghost var s := At(now);
      updated := Matches(id, token, now);
      if updated {
        jobs := jobs[id := jobs[id].(status := Retrying, retryAfter := Some(retryAfter), updatedAt := now,
                                     token := None, expiry := None)];
      }
      OneRowStep(s, ScheduleRetry(id, token, retryAfter), id);
      assert id in s.jobs ==> s.jobs[id := s.jobs[id]] == s.jobs;
    }

    /** Stops every unfinished job of an Owner's group; a deletion is revoked in whole or not at all. */
    method CancelJobGroup(v: VaultId, g: string, action: Action, now: Time) returns (count: nat)
      modifies this`jobs
      ensures action != CloudPurge ==>
        && jobs == Apply(old(At(now)), CancelGroup(v, g, action)).jobs
        && count == |Unfinished(old(jobs), v, g, action)|
        && jobs.Keys == old(jobs).Keys && forall id | id in jobs ::
             jobs[id] == if InUnfinished(old(jobs)[id], v, g, action)
               then old(jobs)[id].(status := Cancelled, updatedAt := now) else old(jobs)[id]
      ensures action == CloudPurge ==>
        && jobs == Apply(old(At(now)), CancelPurge(v, g)).jobs
        && count == if Cancellable(old(jobs), v, g) then |Members(old(jobs), v, g)| else 0
    {
      UnfinishedInColumns(jobs, v, g, action, now);
      if action == CloudPurge {
        count := CancelDeletion(v, g, now);
      } else {
        count := CancelOrdinary(v, g, action, now);
      }
    }

    method CancelOrdinary(v: VaultId, g: string, action: Action, now: Time) returns (count: nat)
      requires action != CloudPurge
      modifies this`jobs
      ensures jobs == Apply(old(At(now)), CancelGroup(v, g, action)).jobs
      ensures count == |Unfinished(old(jobs), v, g, action)|
    {
      ghost var s := At(now);
      CancelGroupIsStep(s, v, g, action);
      var rows := Unfinished(jobs, v, g, action);
      count := |rows|;
      StopRows(rows, now);
    }

    method StopRows(rows: set<JobId>, now: Time)
      requires rows <= jobs.Keys
      modifies this`jobs
      ensures jobs == StoppedJobs(old(jobs), rows, now)
    {
      ghost var before := jobs;
      ghost var done: set<JobId> := {};
      var todo := rows;
      assert StoppedJobs(before, {}, now) == before;
      while todo != {}
        invariant todo <= rows && done == rows - todo
        invariant jobs == StoppedJobs(before, done, now)
        decreases |todo|
      {
        var id :| id in todo;
        StopOneMore(before, done, id, now);
        jobs := jobs[id := jobs[id].(status := Cancelled, updatedAt := now)];
        todo, done := todo - {id}, done + {id};
      }
      assert done == rows;
    }

    method CancelDeletion(v: VaultId, g: string, now: Time) returns (count: nat)
      modifies this`jobs
      ensures jobs == Apply(old(At(now)), CancelPurge(v, g)).jobs
      ensures count == if Cancellable(old(jobs), v, g) then |Members(old(jobs), v, g)| else 0
    {
      ghost var s := At(now);
      count := 0;
      if Cancellable(jobs, v, g) {
        var rows := Members(jobs, v, g);
        count := |rows|;
        jobs := CancelledJobs(jobs, rows, now);
      }
      CancelIsStep(s, v, g);
    }
  }

  function RenewedRows(jobs: Jobs, renewed: set<JobId>, now: Time): Jobs {
    map id | id in jobs :: if id in renewed then jobs[id].(expiry := Some(now + LEASE_SECONDS)) else jobs[id]
  }

  lemma RenewedOne(jobs: Jobs, renewed: set<JobId>, id: JobId, now: Time)
    requires id in jobs && id !in renewed
    ensures RenewedRows(jobs, renewed, now)[id] == jobs[id]
    ensures RenewedRows(jobs, renewed + {id}, now) ==
      RenewedRows(jobs, renewed, now)[id := jobs[id].(expiry := Some(now + LEASE_SECONDS))]
  {
  }
}
