/**
 What the lease protocol guarantees over whole runs: fencing is permanent, terminal statuses
 absorb, the live leases of a deletion group carry one token, and its delay ends for all of its
 members together.
 */
module JobLeases {
  import opened Common
  import opened JobRows
  import opened JobSteps

  // ----- fencing -----

  /** The token was handed out once and no longer owns the row (or never did). */
  predicate Lost(s: State, id: JobId, t: Token) {
    t in s.used && (id in s.jobs ==> !Owns(s.jobs[id], t, s.now))
  }

  lemma LostForOneStep(s: State, step: Step, id: JobId, t: Token)
    requires Enabled(s, step) && Lost(s, id, t)
    ensures Lost(Apply(s, step), id, t)
  {
    if id in s.jobs {
      RowAfter(s, step, id);
      LostRow(s, step, id, t);
    } else if id in Apply(s, step).jobs {
      RowInserted(s, step, id);
    }
  }

  lemma LostRow(s: State, step: Step, id: JobId, t: Token)
    requires Enabled(s, step) && t in s.used && id in s.jobs && !Owns(s.jobs[id], t, s.now)
    ensures !Owns(After(s, step, id), t, Apply(s, step).now)
  {
  }

  /** Steps through which a worker publishes anything about one job under its token. */
  predicate FencedWrite(step: Step, id: JobId, t: Token) {
    || step == Renew(id, t)
    || (step.SetStatus? && step.id == id && step.token == t)
    || (step.HoldForApproval? && step.id == id && step.token == t)
    || (step.ScheduleRetry? && step.id == id && step.token == t)
    || (step.SetProgress? && step.id == id && step.token == t)
    || (step.RenewGroup? && step.token == t && id in step.expected)
    || (step.FinalizePurge? && step.token == t && id in step.expected)
  }

  /** Group writes are all-or-nothing, so one lost member makes them no-ops on every member. */
  lemma LostWriteIsNoOp(s: State, step: Step, id: JobId, t: Token)
    requires Lost(s, id, t) && FencedWrite(step, id, t)
    ensures Apply(s, step) == s
  {
  }

  lemma LostNext(s: State, s': State, id: JobId, t: Token)
    requires Next(s, s') && Lost(s, id, t)
    ensures Lost(s', id, t)
  {
    var step :| Enabled(s, step) && s' == Apply(s, step);
    LostForOneStep(s, step, id, t);
  }

  lemma {:induction false} LostForever(run: seq<State>, i: nat, k: nat, id: JobId, t: Token)
    requires IsRun(run) && i <= k < |run| && Lost(run[i], id, t)
    ensures Lost(run[k], id, t)
    decreases k
  {
    if i < k {
      LostForever(run, i, k - 1, id, t);
      assert StepAt(run, k - 1);
      LostNext(run[k - 1], run[k], id, t);
    }
  }

  /**
   Fencing is permanent. Whichever way a token lost its job (expiry, takeover, release,
   cancellation), in every later state of the run it still owns nothing of it, and every fenced
   write attempted with it leaves the whole table as it was.
   */
  lemma FencingIsPermanent(run: seq<State>, i: nat, k: nat, id: JobId, t: Token, step: Step)
    requires IsRun(run) && i <= k < |run| && Lost(run[i], id, t)
    requires FencedWrite(step, id, t)
    ensures Lost(run[k], id, t) && Apply(run[k], step) == run[k]
  {
    LostForever(run, i, k, id, t);
    LostWriteIsNoOp(run[k], step, id, t);
  }

  // ----- exclusiveness -----

  /** Steps through which the owner of a token lets go of the job itself. */
  predicate LetsGo(step: Step, id: JobId, t: Token) {
    || (step.SetStatus? && step.id == id && step.token == t)
    || (step.HoldForApproval? && step.id == id && step.token == t)
    || (step.ScheduleRetry? && step.id == id && step.token == t)
    || (step.FinalizePurge? && step.token == t)
    || (step.ReleaseGroup? && step.token == t)
  }

  /** The token owns the job until `until` at least. */
  predicate HoldsUntil(s: State, id: JobId, t: Token, until: Time) {
    id in s.jobs && Owns(s.jobs[id], t, s.now) && until <= s.jobs[id].expiry.value && until <= s.now + LEASE_SECONDS
  }

  predicate Over(s: State, id: JobId) {
    id in s.jobs && Terminal(s.jobs[id].status)
  }

  lemma HeldRow(s: State, step: Step, id: JobId, t: Token, until: Time)
    requires HoldsUntil(s, id, t, until) && !LetsGo(step, id, t)
    ensures var j' := After(s, step, id);
      Terminal(j'.status) || (j'.token == Some(t) && j'.expiry.Some? && j'.expiry.value >= until)
  {
  }

  lemma HeldStep(s: State, step: Step, id: JobId, t: Token, until: Time)
    requires HoldsUntil(s, id, t, until) && !LetsGo(step, id, t) && Apply(s, step).now < until
    ensures HoldsUntil(Apply(s, step), id, t, until) || Over(Apply(s, step), id)
  {
    RowAfter(s, step, id);
    HeldRow(s, step, id, t, until);
  }

  ghost predicate LetGoAt(run: seq<State>, u: nat, id: JobId, t: Token) {
    u + 1 < |run| && exists step :: Enabled(run[u], step) && run[u + 1] == Apply(run[u], step) && LetsGo(step, id, t)
  }

  lemma OverNext(s: State, s': State, id: JobId)
    requires Next(s, s') && Over(s, id)
    ensures Over(s', id)
  {
    EndedNext(s, s', id, s.jobs[id].status);
  }

  lemma HeldNext(run: seq<State>, k: nat, id: JobId, t: Token, until: Time)
    requires k + 1 < |run| && StepAt(run, k) && run[k + 1].now < until
    requires HoldsUntil(run[k], id, t, until) || Over(run[k], id) || exists u: nat :: u < k && LetGoAt(run, u, id, t)
    ensures
      || HoldsUntil(run[k + 1], id, t, until) || Over(run[k + 1], id)
      || exists u: nat :: u < k + 1 && LetGoAt(run, u, id, t)
  {
    if HoldsUntil(run[k], id, t, until) {
      var step :| Enabled(run[k], step) && run[k + 1] == Apply(run[k], step);
      if LetsGo(step, id, t) {
        assert LetGoAt(run, k, id, t);
      } else {
        HeldStep(run[k], step, id, t, until);
      }
    } else if Over(run[k], id) {
      OverNext(run[k], run[k + 1], id);
    }
  }

  lemma TimePasses(run: seq<State>, k: nat)
    requires k + 1 < |run| && StepAt(run, k)
    ensures run[k].now <= run[k + 1].now
  {
  }

  /**
   A lease is exclusive over time: until it runs out, nobody else comes to own the job, unless its owner let
   go of it or the job has ended.
   */
  lemma {:induction false} NoTakeoverBeforeExpiry(run: seq<State>, i: nat, k: nat, id: JobId, t: Token, until: Time)
    requires IsRun(run) && i <= k < |run| && HoldsUntil(run[i], id, t, until) && run[k].now < until
    ensures HoldsUntil(run[k], id, t, until) || Over(run[k], id) || exists u: nat :: u < k && LetGoAt(run, u, id, t)
    ensures (id in run[k].jobs && exists other :: other != t && Owns(run[k].jobs[id], other, run[k].now)) ==>
      exists u: nat :: u < k && LetGoAt(run, u, id, t)
    decreases k
  {
    if i < k {
      assert StepAt(run, k - 1);
      TimePasses(run, k - 1);
      NoTakeoverBeforeExpiry(run, i, k - 1, id, t, until);
      HeldNext(run, k - 1, id, t, until);
    }
  }

  // ----- paused uploads -----

  /** An automatic upload that has produced nothing yet, in a Vault whose automatic uploads are switched off. */
  predicate Paused(s: State, id: JobId) {
    && id in s.jobs && s.jobs[id].action == Upload && s.jobs[id].origin == Automatic && !s.jobs[id].linked
    && s.jobs[id].vault in s.policy && !s.policy[s.jobs[id].vault]
  }

  predicate InHands(s: State, id: JobId) {
    id in s.jobs && s.jobs[id].token.Some? && s.jobs[id].expiry.Some? && s.jobs[id].expiry.value > s.now
  }

  lemma PausedStep(s: State, step: Step, id: JobId)
    requires Paused(s, id) && !InHands(s, id)
    ensures !InHands(Apply(s, step), id)
  {
    RowAfter(s, step, id);
  }

  lemma PausedNext(s: State, s': State, id: JobId)
    requires Next(s, s') && Paused(s, id) && !InHands(s, id)
    ensures !InHands(s', id)
  {
    var step :| Enabled(s, step) && s' == Apply(s, step);
    PausedStep(s, step, id);
  }

  /** As long as automatic uploads of its Vault stay switched off, no worker gets such an upload into its hands. */
  lemma {:induction false} PausedUploadsWait(run: seq<State>, i: nat, k: nat, id: JobId)
    requires IsRun(run) && i <= k < |run| && !InHands(run[i], id) && forall t | i <= t <= k :: Paused(run[t], id)
    ensures !InHands(run[k], id)
    decreases k
  {
    if i < k {
      PausedUploadsWait(run, i, k - 1, id);
      assert StepAt(run, k - 1);
      PausedNext(run[k - 1], run[k], id);
    }
  }

  // ----- ended jobs -----

  predicate Ended(s: State, id: JobId, outcome: Status) {
    Terminal(outcome) && id in s.jobs && s.jobs[id].status == outcome
  }

  lemma EndedRow(s: State, step: Step, id: JobId)
    requires id in s.jobs && Terminal(s.jobs[id].status)
    ensures After(s, step, id).status == s.jobs[id].status
  {
  }

  lemma EndedNext(s: State, s': State, id: JobId, outcome: Status)
    requires Next(s, s') && Ended(s, id, outcome)
    ensures Ended(s', id, outcome)
  {
    var step :| Enabled(s, step) && s' == Apply(s, step);
    RowAfter(s, step, id);
    EndedRow(s, step, id);
  }

  /** A job that ended stays ended, with the same outcome, under every later step. */
  lemma {:induction false} TerminalAbsorbs(run: seq<State>, i: nat, k: nat, id: JobId, outcome: Status)
    requires IsRun(run) && i <= k < |run| && Ended(run[i], id, outcome)
    ensures Ended(run[k], id, outcome)
    decreases k
  {
    if i < k {
      TerminalAbsorbs(run, i, k - 1, id, outcome);
      assert StepAt(run, k - 1);
      EndedNext(run[k - 1], run[k], id, outcome);
    }
  }

  // ----- deletion groups -----

  /** A deletion row starts out waiting, unclaimed, for seven days from its request. */
  lemma NewDeletionWaits(s: State, v: VaultId, g: string, origin: Origin, rows: map<JobId, (FileId, string)>, id: JobId)
    requires id in Apply(s, AdmitPurge(v, g, origin, rows)).jobs && id !in s.jobs
    ensures id in rows && var j := Apply(s, AdmitPurge(v, g, origin, rows)).jobs[id];
      && j.action == CloudPurge && j.vault == v && j.group == Some(g) && j.origin == origin
      && j.file == rows[id].0 && j.path == rows[id].1
      && j.status == PendingDelay && j.requestedAt == s.now && j.pendingUntil == Some(s.now + 7 * 24 * 3600)
      && j.token == None && j.expiry == None
  {
    RowInserted(s, AdmitPurge(v, g, origin, rows), id);
  }

  predicate PairOk(a: Job, b: Job, now: Time) {
    && (a.status == PendingDelay ==>
          && b.status == PendingDelay && a.token.None?
          && a.pendingUntil == b.pendingUntil && a.requestedAt == b.requestedAt)
    && (LiveLease(a, now) && LiveLease(b, now) ==> a.token == b.token)
  }

  predicate GroupsOk(s: State) {
    forall a, b | a in s.jobs && b in s.jobs && SameGroup(s.jobs[a], s.jobs[b]) ::
      PairOk(s.jobs[a], s.jobs[b], s.now)
  }

  /** The identity columns of a row never change. */
  lemma IdentityKept(s: State, step: Step, id: JobId)
    requires id in s.jobs
    ensures var j, j' := s.jobs[id], After(s, step, id);
      && j'.vault == j.vault && j'.group == j.group && j'.action == j.action && j'.file == j.file
      && j'.path == j.path && j'.origin == j.origin
      && j'.requestedAt == j.requestedAt
      && (j.action == CloudPurge ==> j'.pendingUntil == j.pendingUntil)
      && (j'.status == PendingDelay ==> j.status == PendingDelay)
  {
  }

  /** Outside a group claim, a deletion row never gains a lease and never re-enters its delay. */
  lemma PurgeRowKept(s: State, step: Step, id: JobId)
    requires id in s.jobs && s.jobs[id].action == CloudPurge && !step.ClaimGroup?
    requires s.jobs[id].status == PendingDelay ==> s.jobs[id].token.None?
    ensures var j, j' := s.jobs[id], After(s, step, id);
      && (LiveLease(j', Apply(s, step).now) ==> LiveLease(j, s.now) && j'.token == j.token)
      && (j.status == PendingDelay ==> j' == j || Revokes(s, step, j))
  {
  }

  /** The two steps that end a waiting group, in whole. */
  predicate Revokes(s: State, step: Step, j: Job) {
    || (step.CancelPurge? && InGroup(j, step.vault, step.group) && Cancellable(s.jobs, step.vault, step.group))
    || (step.RevokePurge? && InGroup(j, step.vault, step.group))
  }

  lemma ClaimTakesWholeGroup(s: State, lead: JobId, a: JobId, b: JobId)
    requires a in s.jobs && b in s.jobs && SameGroup(s.jobs[a], s.jobs[b])
    requires a in GroupClaim(s.jobs, s.now, lead)
    ensures b in GroupClaim(s.jobs, s.now, lead) <==> !Terminal(s.jobs[b].status)
  {
  }

  lemma PairKept(s: State, step: Step, a: JobId, b: JobId)
    requires a in s.jobs && b in s.jobs && SameGroup(s.jobs[a], s.jobs[b])
    requires PairOk(s.jobs[a], s.jobs[b], s.now) && PairOk(s.jobs[b], s.jobs[a], s.now)
    ensures PairOk(After(s, step, a), After(s, step, b), Apply(s, step).now)
  {
    IdentityKept(s, step, a); IdentityKept(s, step, b);
    if step.ClaimGroup? {
      if a in GroupClaim(s.jobs, s.now, step.lead) { ClaimTakesWholeGroup(s, step.lead, a, b); }
      if b in GroupClaim(s.jobs, s.now, step.lead) { ClaimTakesWholeGroup(s, step.lead, b, a); }
    } else {
      PurgeRowKept(s, step, a); PurgeRowKept(s, step, b);
    }
  }

  lemma GroupsKept(s: State, step: Step)
    requires Enabled(s, step) && GroupsOk(s)
    ensures GroupsOk(Apply(s, step))
  {
    var s' := Apply(s, step);
    forall a, b | a in s'.jobs && b in s'.jobs && SameGroup(s'.jobs[a], s'.jobs[b])
      ensures PairOk(s'.jobs[a], s'.jobs[b], s'.now)
    {
      if a in s.jobs && b in s.jobs {
        RowAfter(s, step, a); RowAfter(s, step, b);
        IdentityKept(s, step, a); IdentityKept(s, step, b);
        assert SameGroup(s.jobs[b], s.jobs[a]);
        PairKept(s, step, a, b);
      } else {
        InsertedGroupIsNew(s, step, a, b);
      }
    }
  }

  /** A group's rows all appear in one admission, so no old row shares a new row's group. */
  lemma InsertedGroupIsNew(s: State, step: Step, a: JobId, b: JobId)
    requires a in Apply(s, step).jobs && b in Apply(s, step).jobs && (a !in s.jobs || b !in s.jobs)
    requires SameGroup(Apply(s, step).jobs[a], Apply(s, step).jobs[b])
    ensures a !in s.jobs && b !in s.jobs
    ensures PairOk(Apply(s, step).jobs[a], Apply(s, step).jobs[b], Apply(s, step).now)
  {
  }

  lemma GroupsNext(s: State, s': State)
    requires Next(s, s') && GroupsOk(s)
    ensures GroupsOk(s')
  {
    var step :| Enabled(s, step) && s' == Apply(s, step);
    GroupsKept(s, step);
  }

  lemma {:induction false} GroupsOkOverRuns(run: seq<State>, k: nat)
    requires |run| > 0 && Init(run[0]) && IsRun(run) && k < |run|
    ensures GroupsOk(run[k])
  {
    if k > 0 {
      GroupsOkOverRuns(run, k - 1);
      assert StepAt(run, k - 1);
      GroupsNext(run[k - 1], run[k]);
    }
  }

  /**
   In every reachable state the live leases inside one deletion group carry one token, even while
   the lead alone is renewed and its peers run out, and the seven-day delay is still running for
   all members of a group or for none.
   */
  lemma OneOwnerPerGroup(s: State, a: JobId, b: JobId)
    requires Reachable(s) && a in s.jobs && b in s.jobs && SameGroup(s.jobs[a], s.jobs[b])
    ensures LiveLease(s.jobs[a], s.now) && LiveLease(s.jobs[b], s.now) ==> s.jobs[a].token == s.jobs[b].token
    ensures s.jobs[a].status == PendingDelay <==> s.jobs[b].status == PendingDelay
  {
    var run :| |run| > 0 && Init(run[0]) && IsRun(run) && run[|run| - 1] == s;
    GroupsOkOverRuns(run, |run| - 1);
    assert SameGroup(s.jobs[b], s.jobs[a]);
    assert PairOk(s.jobs[a], s.jobs[b], s.now) && PairOk(s.jobs[b], s.jobs[a], s.now);
  }

  /**
   While any member of a group still waits out its delay, revoking consent (by the Owner or by a
   reappearing file) is accepted and ends the whole selection at once.
   */
  lemma WaitingGroupCanBeCancelled(s: State, id: JobId)
    requires Reachable(s) && id in s.jobs && s.jobs[id].action == CloudPurge
    requires s.jobs[id].group.Some? && s.jobs[id].status == PendingDelay
    ensures var v, g := s.jobs[id].vault, s.jobs[id].group.value;
      && Cancellable(s.jobs, v, g)
      && forall k | k in Members(s.jobs, v, g) ::
           After(s, CancelPurge(v, g), k).status == Cancelled && After(s, CancelPurge(v, g), k).token.None?
  {
    var run :| |run| > 0 && Init(run[0]) && IsRun(run) && run[|run| - 1] == s;
    GroupsOkOverRuns(run, |run| - 1);
    var v, g := s.jobs[id].vault, s.jobs[id].group.value;
    assert id in Members(s.jobs, v, g);
    forall k | k in Members(s.jobs, v, g) ensures s.jobs[k].status == PendingDelay && s.jobs[k].token.None? {
      assert SameGroup(s.jobs[id], s.jobs[k]) && SameGroup(s.jobs[k], s.jobs[id]);
      assert PairOk(s.jobs[id], s.jobs[k], s.now) && PairOk(s.jobs[k], s.jobs[id], s.now);
    }
  }
}
