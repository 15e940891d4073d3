/**
 The job engine as a state machine. Every step is one committed transaction of a worker, the
 scheduler, the restart reconciliation or the Owner; a worker may crash, stall or lose its lease
 between any two of them. `After` gives the new value of one existing row, `Apply` the new table.
 */
module JobSteps {
  import opened Common
  import opened JobRows

  datatype State = State(
    now: Time,
    poll: nat,
    policy: map<VaultId, bool>,
    offline: set<VaultId>,     // Vaults whose local folder must not be touched now
    jobs: Jobs,
    used: set<Token>)          // every claim token ever handed out

  datatype Step =
    | Tick(dt: nat)
    | SetPolicy(vault: VaultId, autoUpload: bool)
    | SetAccess(vault: VaultId, online: bool)
    | Admit(id: JobId, job: Job)
    | AdmitPurge(vault: VaultId, group: string, origin: Origin, rows: map<JobId, (FileId, string)>)
    | Claim(id: JobId, token: Token)
    | ClaimGroup(lead: JobId, token: Token)
    | Renew(id: JobId, token: Token)
    | RenewGroup(vault: VaultId, group: string, token: Token, expected: set<JobId>)
    | SetStatus(id: JobId, token: Token, status: Status)
    | HoldForApproval(id: JobId, token: Token, until: Time)
    | ScheduleRetry(id: JobId, token: Token, retryAfter: Time)
    | SetProgress(id: JobId, token: Token, bytes: nat)
    | CancelGroup(vault: VaultId, group: string, action: Action)
    | CancelPurge(vault: VaultId, group: string)
    | RevokePurge(vault: VaultId, group: string)
    | FinalizePurge(vault: VaultId, group: string, token: Token, expected: set<JobId>, done: set<JobId>)
    | ReleaseGroup(vault: VaultId, group: string, token: Token)
    | Reconcile(id: JobId, status: Status)
    | ReconcileGroup(vault: VaultId, group: string, failed: bool)
    | Approve(vault: VaultId, group: string)

  const DELETION_DELAY: nat := 604800

  // ----- which statuses a worker of each action may write -----

  /** A deletion is completed only by the finalization of its group. */
  predicate WorkerWrites(a: Action, s: Status) {
    || s == Failed || s == Cancelled || (s == Completed && a != CloudPurge) || s == Queued
    || match a
       case Upload => s == Retrying || s == Uploading || s == Verifying
       case Rename => s == Uploading || s == Verifying || s == Cleaning
       case Recover => s == Retrying || s == Restoring || s == Downloading || s == Verifying
       case FreeSpace => s == Cleaning
       case StorageClass => s == Retrying || s == Restoring || s == Uploading
       case CloudPurge => false
  }

  /** Mid-operation statuses that restart reconciliation picks up once the lease is gone. */
  predicate Interrupted(a: Action, s: Status) {
    match a
    case Recover => s == Downloading || s == Verifying
    case Upload => s == Uploading || s == Verifying
    case Rename => s == Uploading || s == Verifying || s == Cleaning
    case FreeSpace => s == Cleaning
    case StorageClass => s == Uploading
    case CloudPurge => s == Cleaning
  }

  /** Operations on the local folder, which reconciliation leaves suspended while the folder is unavailable. */
  predicate Local(a: Action) {
    a == Recover || a == Upload || a == Rename || a == FreeSpace
  }

  /**
   What reconciliation may decide about an interrupted job. Uploads and renames resume; a recovery resumes only
   when its destination is absent; a storage-class change resumes only as part of a vault move and is never
   repeated otherwise; anything unexpected fails the job.
   */
  predicate MayDecide(j: Job, outcome: Status) {
    || outcome == Failed
    || (outcome == Queued && (j.action == StorageClass ==> j.move))
    || (outcome == Completed
        && (j.action == Recover || j.action == FreeSpace || (j.action == StorageClass && !j.move)))
  }

  // ----- group guards -----

  function Members(jobs: Jobs, vault: VaultId, group: string): set<JobId> {
    set id | id in jobs && InGroup(jobs[id], vault, group)
  }

  /** The rows `renew_purge_group_claim` would touch. */
  function HeldMembers(jobs: Jobs, now: Time, vault: VaultId, group: string, t: Token): set<JobId> {
    set id | id in jobs && InGroup(jobs[id], vault, group) && jobs[id].status == Cleaning && Owns(jobs[id], t, now)
  }

  predicate Cancellable(jobs: Jobs, vault: VaultId, group: string) {
    && Members(jobs, vault, group) != {}
    && forall id | id in Members(jobs, vault, group) :: jobs[id].status == PendingDelay && jobs[id].token.None?
  }

  /** Reconciliation leaves a group alone around a live claim or an unexpected status. */
  predicate GroupReconcilable(jobs: Jobs, now: Time, vault: VaultId, group: string) {
    forall id | id in ActiveMembers(jobs, vault, group) ::
      !Leased(jobs[id], now) && (jobs[id].status == Cleaning || jobs[id].status == Queued)
  }

  /** Reconciliation looks at the job: interrupted, unleased, and not waiting for its folder. */
  predicate Reconcilable(s: State, j: Job) {
    && j.action != CloudPurge && Interrupted(j.action, j.status) && !Leased(j, s.now)
    && (Local(j.action) ==> j.vault !in s.offline)
  }

  // ----- one row through one step -----

  function After(s: State, step: Step, id: JobId): Job
    requires id in s.jobs
  {
    var j := s.jobs[id];
    match step
    case Tick(_) => j
    case SetPolicy(_, _) => j
    case SetAccess(_, _) => j
    case Admit(_, _) => j
    case AdmitPurge(_, _, _, _) => j
    case Claim(target, t) =>
      if id == target && j.action != CloudPurge && Claimable(s.jobs, s.policy, s.now, s.poll, id)
      then j.(token := Some(t), expiry := Some(s.now + LEASE_SECONDS)) else j
    case ClaimGroup(lead, t) =>
      if id in GroupClaim(s.jobs, s.now, lead)
      then j.(status := Cleaning, token := Some(t), expiry := Some(s.now + LEASE_SECONDS), updatedAt := s.now)
      else j
    case Renew(target, t) =>
      if id == target && Owns(j, t, s.now) then j.(expiry := Some(s.now + LEASE_SECONDS)) else j
    case RenewGroup(v, g, t, expected) =>
      if id in HeldMembers(s.jobs, s.now, v, g, t) && HeldMembers(s.jobs, s.now, v, g, t) == expected
      then j.(expiry := Some(s.now + LEASE_SECONDS)) else j
    case SetStatus(target, t, st) =>
      if id == target && Owns(j, t, s.now) && WorkerWrites(j.action, st)
      then if HoldsLease(st)
           then j.(status := st, updatedAt := s.now, expiry := Some(s.now + LEASE_SECONDS))
           else Release(j.(status := st, updatedAt := s.now))
      else j
    case HoldForApproval(target, t, until) =>
      if id == target && Owns(j, t, s.now) && j.action == Recover
      then Release(j.(status := PendingApproval, pendingUntil := Some(until), updatedAt := s.now)) else j
    case ScheduleRetry(target, t, ra) =>
      if id == target && Owns(j, t, s.now) && (j.action == Upload || j.action == StorageClass)
      then Release(j.(status := Retrying, retryAfter := Some(ra), updatedAt := s.now)) else j
    case SetProgress(target, t, bytes) =>
      if id == target && Owns(j, t, s.now)
      then j.(progress := bytes, updatedAt := s.now, expiry := Some(s.now + LEASE_SECONDS)) else j
    case CancelGroup(v, g, a) =>
      if a != CloudPurge && j.vault == v && j.group == Some(g) && j.action == a && !Terminal(j.status)
      then j.(status := Cancelled, updatedAt := s.now) else j
    case CancelPurge(v, g) =>
      if InGroup(j, v, g) && Cancellable(s.jobs, v, g)
      then Release(j.(status := Cancelled, updatedAt := s.now)) else j
    case RevokePurge(v, g) =>
      if InGroup(j, v, g) && !Terminal(j.status)
      then Release(j.(status := Cancelled, updatedAt := s.now)) else j
    case FinalizePurge(v, g, t, expected, done) =>
      if id in HeldMembers(s.jobs, s.now, v, g, t) && HeldMembers(s.jobs, s.now, v, g, t) == expected
      then Release(j.(status := if id in done then Completed else Failed, updatedAt := s.now)) else j
    case ReleaseGroup(v, g, t) =>
      if id in HeldMembers(s.jobs, s.now, v, g, t) then Release(j.(status := Queued)) else j
    case Reconcile(target, st) =>
      if id == target && Reconcilable(s, j) && MayDecide(j, st)
      then Release(j.(status := st, updatedAt := s.now)) else j
    case ReconcileGroup(v, g, failed) =>
      if InGroup(j, v, g) && j.status == Cleaning && !Leased(j, s.now) && GroupReconcilable(s.jobs, s.now, v, g)
      then Release(j.(status := if failed then Failed else Queued, updatedAt := s.now)) else j
    case Approve(v, g) =>
      if j.action == Recover && j.vault == v && j.group == Some(g) && j.status == PendingApproval
      then j.(status := Queued, updatedAt := s.now) else j
  }

  // ----- rows that appear -----

  predicate FreshAdmission(job: Job, now: Time) {
    && job.action != CloudPurge
    && (job.status == Queued || (job.status == PendingApproval && job.action == Recover))
    && job.group.Some? && job.token.None? && job.expiry.None?
  }

  function PurgeRow(s: State, vault: VaultId, group: string, origin: Origin, row: (FileId, string)): Job {
    Job(vault, row.0, row.1, Some(group), CloudPurge, PendingDelay, origin, false, false,
        Some(s.now + DELETION_DELAY), None, s.now, s.now, 0, None, None)
  }

  function Inserted(s: State, step: Step): Jobs {
    match step
    case Admit(id, job) => if id !in s.jobs && FreshAdmission(job, s.now) then map[id := job] else map[]
    case AdmitPurge(v, g, origin, rows) =>
      if g != "" && rows != map[] && rows.Keys !! s.jobs.Keys &&
        (forall id | id in s.jobs :: s.jobs[id].group != Some(g))
      then map id | id in rows :: PurgeRow(s, v, g, origin, rows[id]) else map[]
    case _ => map[]
  }

  function TokenOf(step: Step): Option<Token> {
    match step
    case Claim(_, t) => Some(t)
    case ClaimGroup(_, t) => Some(t)
    case _ => None
  }

  /** A claim carries a token never handed out before. */
  predicate Enabled(s: State, step: Step) {
    TokenOf(step).Some? ==> TokenOf(step).value !in s.used
  }

  function Apply(s: State, step: Step): State {
    State(
      if step.Tick? then s.now + step.dt else s.now,
      s.poll,
      if step.SetPolicy? then s.policy[step.vault := step.autoUpload] else s.policy,
      if !step.SetAccess? then s.offline else if step.online then s.offline - {step.vault}
        else s.offline + {step.vault},
      (map id | id in s.jobs :: After(s, step, id)) + Inserted(s, step),
      if TokenOf(step).Some? then s.used + {TokenOf(step).value} else s.used)
  }

  ghost predicate Next(s: State, s': State) {
    exists step :: Enabled(s, step) && s' == Apply(s, step)
  }

  ghost predicate StepAt(run: seq<State>, i: nat)
    requires i + 1 < |run|
  {
    Next(run[i], run[i + 1])
  }

  ghost predicate IsRun(run: seq<State>) {
    forall i: nat | i + 1 < |run| :: StepAt(run, i)
  }

  predicate Init(s: State) {
    s.jobs == map[] && s.used == {}
  }

  ghost predicate Reachable(s: State) {
    exists run: seq<State> :: |run| > 0 && Init(run[0]) && IsRun(run) && run[|run| - 1] == s
  }

  /** An existing row is moved by `After` and nothing else: inserted ids are new. */
  lemma RowAfter(s: State, step: Step, id: JobId)
    requires id in s.jobs
    ensures id in Apply(s, step).jobs && Apply(s, step).jobs[id] == After(s, step, id)
  {
  }

  /** A row that was not there before is a fresh admission, unleased. */
  lemma RowInserted(s: State, step: Step, id: JobId)
    requires id in Apply(s, step).jobs && id !in s.jobs
    ensures id in Inserted(s, step) && Apply(s, step).jobs[id] == Inserted(s, step)[id]
    ensures Inserted(s, step)[id].token.None? && !Terminal(Inserted(s, step)[id].status)
  {
  }
}
