/**
 Rows of the `jobs` table and the two definitions of claimability: the set-based
 predicate used by the scheduler and by `claim_job`, and the row-by-row check made
 by `claim_purge_group` after it has locked a whole deletion group.
 */
module JobRows {
  import opened Common

  datatype Action = Upload | Recover | FreeSpace | Rename | CloudPurge | StorageClass

  datatype Status =
    | Queued | Retrying | PendingDelay | PendingApproval | Restoring
    | Downloading | Uploading | Verifying | Cleaning
    | Completed | Failed | Cancelled

  datatype Origin = Manual | Automatic | StopProtection

  datatype Job = Job(
    vault: VaultId,
    file: FileId,
    path: string,
    group: Option<string>,
    action: Action,
    status: Status,
    origin: Origin,
    linked: bool,               // archive_version_id IS NOT NULL
    move: bool,                 // the job has a vault-move ledger
    pendingUntil: Option<Time>,
    retryAfter: Option<Time>,
    requestedAt: Time,
    updatedAt: Time,
    progress: nat,
    token: Option<Token>,
    expiry: Option<Time>)

  type Jobs = map<JobId, Job>

  const LEASE_SECONDS: nat := 300

  predicate Terminal(s: Status) {
    s == Completed || s == Failed || s == Cancelled
  }

  /** Statuses that keep the worker's lease when they are written. */
  predicate HoldsLease(s: Status) {
    s == Downloading || s == Uploading || s == Verifying || s == Cleaning
  }

  /** A claim nobody may take over: present, with an expiry still in the future. */
  predicate Leased(j: Job, now: Time) {
    j.token.Some? && j.expiry.Some? && j.expiry.value > now
  }

  /** What every fenced write demands of the row it is about to change. */
  predicate Owns(j: Job, t: Token, now: Time) {
    j.token == Some(t) && j.expiry.Some? && j.expiry.value > now && !Terminal(j.status)
  }

  predicate LiveLease(j: Job, now: Time) {
    Leased(j, now) && !Terminal(j.status)
  }

  function Release(j: Job): Job {
    j.(token := None, expiry := None)
  }

  predicate InGroup(j: Job, vault: VaultId, group: string) {
    j.action == CloudPurge && j.vault == vault && j.group == Some(group)
  }

  predicate SameGroup(a: Job, b: Job) {
    a.action == CloudPurge && b.action == CloudPurge && a.vault == b.vault
    && a.group == b.group && a.group.Some?
  }

  // ----- the shared, set-based predicate -----

  predicate RunnableStatus(j: Job, now: Time, poll: nat) {
    || j.status == Queued
    || (j.status == Retrying && (j.retryAfter.None? || DueBy(j.retryAfter, now)))
    || (j.action == CloudPurge && j.status == PendingDelay && DueBy(j.pendingUntil, now))
    || ((j.action == Recover || j.action == StorageClass) && j.status == Restoring
        && j.updatedAt + poll <= now)
  }

  /** Vaults without a policy row upload automatically. */
  predicate AutoUpload(policy: map<VaultId, bool>, vault: VaultId) {
    vault in policy ==> policy[vault]
  }

  predicate UploadAllowed(j: Job, policy: map<VaultId, bool>) {
    j.action != Upload || j.origin != Automatic || j.linked || AutoUpload(policy, j.vault)
  }

  /** A group member that keeps its peers from being claimed. */
  predicate BlocksPeers(peer: Job, now: Time) {
    && !Terminal(peer.status)
    && ((peer.status != Queued && !(peer.status == PendingDelay && DueBy(peer.pendingUntil, now)))
        || Leased(peer, now))
  }

  predicate Claimable(jobs: Jobs, policy: map<VaultId, bool>, now: Time, poll: nat, id: JobId)
    requires id in jobs
  {
    var j := jobs[id];
    && RunnableStatus(j, now, poll)
    && UploadAllowed(j, policy)
    && !Leased(j, now)
    && (j.action == CloudPurge ==>
          && j.group.Some?
          && forall p | p in jobs :: SameGroup(j, jobs[p]) ==> !BlocksPeers(jobs[p], now))
  }

  // ----- the row-by-row check of claim_purge_group -----

  predicate PurgeRunnable(j: Job, now: Time) {
    j.status == Queued || (j.status == PendingDelay && DueBy(j.pendingUntil, now))
  }

  function ActiveMembers(jobs: Jobs, vault: VaultId, group: string): set<JobId> {
    set id | id in jobs && InGroup(jobs[id], vault, group) && !Terminal(jobs[id].status)
  }

  /** The ids that `claim_purge_group` leases when `lead` is nominated. */
  function GroupClaim(jobs: Jobs, now: Time, lead: JobId): set<JobId> {
    if lead !in jobs || jobs[lead].action != CloudPurge || jobs[lead].group.None?
       || jobs[lead].group.value == "" then {}
    else
      var active := ActiveMembers(jobs, jobs[lead].vault, jobs[lead].group.value);
      if forall id | id in active :: !Leased(jobs[id], now) && PurgeRunnable(jobs[id], now)
      then active else {}
  }

  /**
   The scheduler's predicate and the group acquisition agree on every deletion job, except
   that the acquisition also refuses a group whose id is the empty string: Python calls the
   empty string false, SQL does not call it NULL.
   */
  lemma PurgeClaimabilityAgrees(jobs: Jobs, policy: map<VaultId, bool>, now: Time, poll: nat, id: JobId)
    requires id in jobs && jobs[id].action == CloudPurge
    ensures id in GroupClaim(jobs, now, id)
       <==> Claimable(jobs, policy, now, poll, id) && jobs[id].group != Some("")
    ensures Claimable(jobs, policy, now, poll, id) && jobs[id].group != Some("")
       ==> GroupClaim(jobs, now, id) == ActiveMembers(jobs, jobs[id].vault, jobs[id].group.value)
  {
  }

  /**
   The one group id on which the two checks part company. Admission gives every group a random id, so this
   is a disagreement of the two definitions, not a state of the engine: no run reaches it.
   */
  lemma EmptyGroupIdDisagrees()
    ensures exists jobs: Jobs, id ::
              id in jobs && Claimable(jobs, map[], 10, 0, id) && GroupClaim(jobs, 10, id) == {}
  {
    var j := Job(1, 1, "a", Some(""), CloudPurge, Queued, Manual, false, false, Some(5), None, 0, 0, 0, None, None);
    var jobs: Jobs := map[7 := j];
    assert !BlocksPeers(j, 10);
    assert Claimable(jobs, map[], 10, 0, 7);
    assert GroupClaim(jobs, 10, 7) == {};
  }

  // ----- what a lease means to everybody else -----

  /** Before `until` the token owns the job, no other token does, and no claim of any kind takes it. */
  ghost predicate Exclusive(jobs: Jobs, id: JobId, token: Token, until: Time) {
    && id in jobs
    && (forall now: Time | now < until :: Owns(jobs[id], token, now))
    && (forall t: Token, now: Time | now < until :: Owns(jobs[id], t, now) ==> t == token)
    && (forall policy: map<VaultId, bool>, now: Time, poll: nat | now < until ::
          !Claimable(jobs, policy, now, poll, id))
    && (forall lead: JobId, now: Time | now < until :: id !in GroupClaim(jobs, now, lead))
  }

  lemma LeaseIsExclusive(jobs: Jobs, id: JobId, token: Token, until: Time)
    requires id in jobs && jobs[id].token == Some(token) && jobs[id].expiry == Some(until) && !Terminal(jobs[id].status)
    ensures Exclusive(jobs, id, token, until)
  {
    forall lead: JobId, now: Time | now < until ensures id !in GroupClaim(jobs, now, lead) {
      assert Leased(jobs[id], now);
    }
  }

  /** The token owns nothing of the job, now or later, unless the row changes. */
  ghost predicate Fenced(jobs: Jobs, id: JobId, token: Token, from: Time) {
    forall now: Time | from <= now :: id in jobs ==> !Owns(jobs[id], token, now)
  }
}
