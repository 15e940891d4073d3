/**
 The deletion tables as the service mutates them: cancelling a waiting group, the authority check
 that cancels on refusal, and the bounded batches in which results are recorded.
 */
module DeletionStore {
  import opened Common
  import opened JobRows
  import J = JobSteps
  import opened JobStore
  import opened DeletionRows
  import opened DeletionColumns
  import opened PurgeMachine

  lemma CancelOneMore(jobs: Jobs, ids: set<JobId>, id: JobId, at: Time)
    requires id in jobs && id !in ids
    ensures CancelledJobs(jobs, ids, at)[id] == jobs[id]
    ensures CancelledJobs(jobs, ids, at)[id := CancelledRow(jobs[id], at)] == CancelledJobs(jobs, ids + {id}, at)
  {
  }

  lemma NoneCancelled(jobs: Jobs, items: Items, at: Time)
    ensures CancelledJobs(jobs, {}, at) == jobs && Skip(items, {}) == items
  {
  }

  lemma SkipOneMore(items: Items, ids: set<JobId>, id: JobId)
    ensures Skip(Skip(items, ids), {id}) == Skip(items, ids + {id})
  {
  }

  function KeysOf(ids: seq<ItemKey>): set<ItemKey> {
    set k | k in ids
  }

  lemma MarkedTwice(items: Items, a: set<ItemKey>, b: set<ItemKey>, status: ItemStatus)
    ensures Mark(Mark(items, a, status), b, status) == Mark(items, a + b, status)
  {
  }

  lemma PurgedTwice(w: World, a: set<ItemKey>, b: set<ItemKey>)
    ensures PurgeVersions(PurgeVersions(w, a), b) == PurgeVersions(w, a + b)
  {
  }

  /** A row that has been moved to its last status, or back to the queue, without a claim. */
  function Ended(j: Job, status: Status, at: Time): Job {
    j.(status := status, token := None, expiry := None, updatedAt := at)
  }

  predicate IsOpen(i: Item) {
    i.status == Pending || i.status == Errored
  }

  lemma CancelledInColumns(jobs: Jobs, items: Items, ids: set<JobId>, at: Time)
    ensures forall id | id in jobs ::
      CancelledJobs(jobs, ids, at)[id] == if id in ids then Ended(jobs[id], Status.Cancelled, at) else jobs[id]
    ensures forall k | k in items ::
      Skip(items, ids)[k] == if k.job in ids && IsOpen(items[k]) then items[k].(status := Skipped) else items[k]
  {
  }

  /** A job left in cleaning by a worker that is gone, in a group nobody holds. */
  ghost predicate Abandoned(jobs: Jobs, v: VaultId, g: string, now: Time, id: JobId) {
    && IsActive(jobs, v, g, id) && jobs[id].status == Cleaning
    && forall m | m in jobs && IsActive(jobs, v, g, m) ::
         && (jobs[m].status == Cleaning || jobs[m].status == Queued)
         && (jobs[m].token.None? || jobs[m].expiry.None? || jobs[m].expiry.value <= now)
  }

  /** A recorded failure ends an abandoned group, and so does a provider that must be read and cannot be. */
  ghost predicate Fails(jobs: Jobs, items: Items, v: VaultId, g: string, now: Time, readable: bool) {
    exists k :: k in items && Abandoned(jobs, v, g, now, k.job) &&
      (items[k].status == Errored || (!readable && items[k].status == Pending))
  }

  lemma StaleInColumns(s: State, v: VaultId, g: string)
    ensures forall id :: id in Stale(s, v, g) <==> Abandoned(s.js.jobs, v, g, s.js.now, id)
  {
    ActiveInColumns(s.js.jobs, v, g);
    assert forall id | id in s.js.jobs :: IsActive(s.js.jobs, v, g, id) <==> id in ActiveMembers(s.js.jobs, v, g);
  }

  lemma OpenInColumns(s: State, v: VaultId, g: string)
    ensures forall k :: k in Outstanding(s.items, Stale(s, v, g)) <==>
      k in s.items && IsOpen(s.items[k]) && Abandoned(s.js.jobs, v, g, s.js.now, k.job)
  {
    StaleInColumns(s, v, g);
  }

  lemma EndsInColumns(s: State, v: VaultId, g: string, readable: bool)
    ensures Ends(s, v, g, !readable && Outstanding(s.items, Stale(s, v, g)) != {}) <==>
      Fails(s.js.jobs, s.items, v, g, s.js.now, readable)
  {
    OpenInColumns(s, v, g);
    var rows := Outstanding(s.items, Stale(s, v, g));
    if Fails(s.js.jobs, s.items, v, g, s.js.now, readable) {
      var k :| k in s.items && Abandoned(s.js.jobs, v, g, s.js.now, k.job) &&
        (s.items[k].status == Errored || (!readable && s.items[k].status == Pending));
      assert k in rows;
    }
    if !readable && rows != {} {
      var k :| k in rows;
      assert Fails(s.js.jobs, s.items, v, g, s.js.now, readable);
    }
  }

  /** Abandoned jobs fail or return to the queue together, without a claim; all others stay as they are. */
  ghost predicate JobsReconciled(jobs: Jobs, jobs': Jobs, v: VaultId, g: string, now: Time, fails: bool) {
    && jobs'.Keys == jobs.Keys
    && forall id | id in jobs ::
         jobs'[id] == if Abandoned(jobs, v, g, now, id) then Ended(jobs[id], if fails then Failed else Queued, now)
           else jobs[id]
  }

  /** Open items of abandoned jobs that the provider no longer holds are recorded as deleted, unless the group fails. */
  ghost predicate ItemsReconciled(jobs: Jobs, items: Items, items': Items, v: VaultId, g: string, now: Time,
    cloud: set<Target>, fails: bool)
  {
    && items'.Keys == items.Keys
    && forall k | k in items ::
         var gone := !fails && Abandoned(jobs, v, g, now, k.job) && IsOpen(items[k]) && items[k].target !in cloud;
         items'[k] == if gone then items[k].(status := Deleted) else items[k]
  }

  lemma ReconciledInColumns(s: State, v: VaultId, g: string, readable: bool)
    ensures var s' := Apply(s, ReconcileItems(v, g, !readable && Outstanding(s.items, Stale(s, v, g)) != {}));
      var fails := Fails(s.js.jobs, s.items, v, g, s.js.now, readable);
      && JobsReconciled(s.js.jobs, s'.js.jobs, v, g, s.js.now, fails)
      && ItemsReconciled(s.js.jobs, s.items, s'.items, v, g, s.js.now, s.cloud, fails)
  {
    var unreadable := !readable && Outstanding(s.items, Stale(s, v, g)) != {};
    ReconcileOutcome(s, v, g, unreadable);
    EndsInColumns(s, v, g, readable);
    JobsInColumns(s, v, g, Ends(s, v, g, unreadable));
    ItemsInColumns(s, v, g, Ends(s, v, g, unreadable));
  }

  lemma JobsInColumns(s: State, v: VaultId, g: string, fails: bool)
    ensures JobsReconciled(s.js.jobs, ReconciledJobs(s.js.jobs, Stale(s, v, g), fails, s.js.now), v, g, s.js.now, fails)
  {
    StaleInColumns(s, v, g);
  }

  lemma ItemsInColumns(s: State, v: VaultId, g: string, fails: bool)
    ensures ItemsReconciled(s.js.jobs, s.items, if fails then s.items else Mark(s.items, Vanished(s, v, g), Deleted), v,
      g, s.js.now, s.cloud, fails)
  {
    OpenInColumns(s, v, g);
  }

  predicate OfGroup(j: Job, v: VaultId, g: string) {
    j.action == CloudPurge && j.vault == v && j.group == Some(g)
  }

  lemma CancellableInColumns(jobs: Jobs, v: VaultId, g: string)
    ensures J.Cancellable(jobs, v, g) <==>
      && (exists id | id in jobs :: OfGroup(jobs[id], v, g))
      && forall id | id in jobs && OfGroup(jobs[id], v, g) :: jobs[id].status == PendingDelay && jobs[id].token.None?
  {
    if id :| id in jobs && OfGroup(jobs[id], v, g) { assert id in J.Members(jobs, v, g); }
    assert forall id :: id in J.Members(jobs, v, g) <==> id in jobs && OfGroup(jobs[id], v, g);
  }

  class DeletionTables {
    var jobs: Jobs
    var items: Items
    var world: World

    constructor (world: World)
      ensures jobs == map[] && items == map[] && this.world == world
    {
      jobs, items, this.world := map[], map[], world;
    }

    ghost function At(now: Time): J.State
      reads this
    {
      J.State(now, 0, map[], {}, jobs, {})
    }

    /** `_cancel_rows`: one job after the other, each with its unfinished items. */
    method CancelRows(ids: set<JobId>, at: Time)
      requires ids <= jobs.Keys
      modifies this`jobs, this`items
      ensures jobs == CancelledJobs(old(jobs), ids, at) && items == Skip(old(items), ids)
      ensures jobs.Keys == old(jobs).Keys && items.Keys == old(items).Keys
      ensures forall id | id in jobs ::
        jobs[id] == if id in ids then Ended(old(jobs)[id], Status.Cancelled, at) else old(jobs)[id]
      ensures forall k | k in items ::
        items[k] == if k.job in ids && IsOpen(old(items)[k]) then old(items)[k].(status := Skipped) else old(items)[k]
    {
      var todo := ids;
      ghost var done: set<JobId> := {};
      NoneCancelled(jobs, items, at);
      while todo != {}
        invariant todo <= ids && done == ids - todo
        invariant Cancelled(old(jobs), old(items), done, at)
        decreases |todo|
      {
        var id :| id in todo;
        CancelRow(id, at, old(jobs), old(items), done);
        todo, done := todo - {id}, done + {id};
      }
      assert done == ids;
      CancelledInColumns(old(jobs), old(items), ids, at);
    }

    ghost predicate Cancelled(jobs0: Jobs, items0: Items, done: set<JobId>, at: Time)
      reads this
    {
      jobs == CancelledJobs(jobs0, done, at) && items == Skip(items0, done)
    }

    method CancelRow(id: JobId, at: Time, ghost jobs0: Jobs, ghost items0: Items, ghost done: set<JobId>)
      requires id in jobs0 && id !in done && Cancelled(jobs0, items0, done, at)
      modifies this`jobs, this`items
      ensures Cancelled(jobs0, items0, done + {id}, at)
    {
      CancelOneMore(jobs0, done, id, at);
      SkipOneMore(items0, done, id);
      jobs := jobs[id := CancelledRow(jobs[id], at)];
      items := Skip(items, {id});
    }

    /** Revokes a waiting deletion in whole, or refuses because it already started or ended. */
    method CancelCloudDeletion(v: VaultId, g: string, at: Time) returns (cancelled: bool)
      modifies this`jobs, this`items
      ensures cancelled <==>
        && (exists id | id in old(jobs) :: OfGroup(old(jobs)[id], v, g))
        && forall id | id in old(jobs) && OfGroup(old(jobs)[id], v, g) ::
             old(jobs)[id].status == PendingDelay && old(jobs)[id].token.None?
      ensures cancelled ==>
        && jobs == J.Apply(old(At(at)), J.CancelPurge(v, g)).jobs
        && items == Skip(old(items), J.Members(old(jobs), v, g))
      ensures !cancelled ==> jobs == old(jobs) && items == old(items)
    {
      CancellableInColumns(jobs, v, g);
      cancelled := J.Cancellable(jobs, v, g);
      if cancelled {
        CancelIsStep(At(at), v, g);
        CancelRows(J.Members(jobs, v, g), at);
      }
    }

    /** The row-by-row part of the authority check. */
    method RowsAuthorized(v: VaultId, g: string, at: Time) returns (ok: bool)
      ensures ok <==> forall id | id in ActiveMembers(jobs, v, g) ::
        DelayElapsed(jobs[id], at) && WithinConsent(world, items, id, jobs[id].file)
    {
      var active := ActiveMembers(jobs, v, g);
      var todo := active;
      while todo != {}
        invariant todo <= active
        invariant forall id | id in active - todo ::
          DelayElapsed(jobs[id], at) && WithinConsent(world, items, id, jobs[id].file)
        decreases |todo|
      {
        var id :| id in todo;
        if !DelayElapsed(jobs[id], at) || !WithinConsent(world, items, id, jobs[id].file) { return false; }
        todo := todo - {id};
      }
      return true;
    }

    /** Says whether the group may delete now; a refusal cancels it on the spot. */
    method ValidateExecution(v: VaultId, g: string, at: Time) returns (ok: bool)
      modifies this`jobs, this`items
      ensures ok <==> GroupAllowed(world, old(jobs), old(items), v, g, at)
      ensures ok ==> jobs == old(jobs) && items == old(items)
      ensures !ok ==>
        && jobs == J.Apply(old(At(at)), J.RevokePurge(v, g)).jobs
        && items == Skip(old(items), ActiveMembers(old(jobs), v, g))
    {
      AuthorizedInColumns(world, jobs, items, v, g, at);
      ok := IsAuthorized(v, g, at);
      if !ok {
        RevokeIsStep(At(at), v, g);
        CancelRows(ActiveMembers(jobs, v, g), at);
      }
    }

    method IsAuthorized(v: VaultId, g: string, at: Time) returns (ok: bool)
      ensures ok <==> Authorized(world, jobs, items, v, g, at)
    {
      var rows := RowsAuthorized(v, g, at);
      var active := AuthorityActive(world, jobs, v, g);
      ok := false;
      if active && rows {
        ok := FilesAuthorized(v, g);
      }
    }

    /** The selected files are still those at the selected paths, absent from the disk and deletable. */
    method FilesAuthorized(v: VaultId, g: string) returns (ok: bool)
      requires v in world.vaults
      ensures ok <==>
        && FilesAtPaths(world, jobs, v, g) == (set id | id in ActiveMembers(jobs, v, g) :: jobs[id].file)
        && (forall f | f in FilesAtPaths(world, jobs, v, g) :: LocallyAbsent(world, v, f))
        && world.vaults[v].observationsConfirmed
        && (forall f | f in FilesAtPaths(world, jobs, v, g) && LiveVersions(world, f) != {} ::
              FileDeletable(world, jobs, items, v, f, Some(g)))
    {
      var active, files := ActiveMembers(jobs, v, g), FilesAtPaths(world, jobs, v, g);
      ok := && files == (set id | id in active :: jobs[id].file)
            && (forall f | f in files :: LocallyAbsent(world, v, f))
            && world.vaults[v].observationsConfirmed
            && (forall f | f in files && LiveVersions(world, f) != {} ::
                  FileDeletable(world, jobs, items, v, f, Some(g)));
    }

    /** Records provider deletions in batches of at most 500 items. */
    method MarkItemsDeleted(ids: seq<ItemKey>)
      modifies this`items, this`world
      ensures items == Mark(old(items), KeysOf(ids), Deleted) && world == PurgeVersions(old(world), KeysOf(ids))
      ensures items.Keys == old(items).Keys && forall k | k in items ::
        items[k] == if k in ids then old(items)[k].(status := Deleted) else old(items)[k]
      ensures world == old(world).(versions := world.versions) && world.versions.Keys == old(world).versions.Keys
      ensures forall r | r in world.versions ::
        world.versions[r] == if exists k :: k in ids && k.kind == Version && k.row == r
          then old(world).versions[r].(availability := Purged) else old(world).versions[r]
    {
      var offset := 0;
      while offset < |ids|
        invariant 0 <= offset <= |ids|
        invariant items == Mark(old(items), KeysOf(ids[..offset]), Deleted)
        invariant world == PurgeVersions(old(world), KeysOf(ids[..offset]))
      {
        var end := if offset + 500 <= |ids| then offset + 500 else |ids|;
        var batch := KeysOf(ids[offset..end]);
        MarkedTwice(old(items), KeysOf(ids[..offset]), batch, Deleted);
        PurgedTwice(old(world), KeysOf(ids[..offset]), batch);
        assert ids[..end] == ids[..offset] + ids[offset..end];
        assert KeysOf(ids[..end]) == KeysOf(ids[..offset]) + batch;
        items := Mark(items, batch, Deleted);
        world := PurgeVersions(world, batch);
        offset := end;
      }
      assert ids[..offset] == ids;
    }

    /** The tables as a state of the deletion machine, with what the provider holds. */
    ghost function Machine(now: Time, cloud: set<Target>): State
      reads this
    {
      State(At(now), items, world, cloud, map[], [], map[])
    }

    /** No member of the group is leased or in a status reconciliation does not expect. */
    method Restable(active: set<JobId>, now: Time) returns (ok: bool)
      requires active <= jobs.Keys
      ensures ok <==> forall id | id in active ::
        !Leased(jobs[id], now) && (jobs[id].status == Cleaning || jobs[id].status == Queued)
    {
      var todo := active;
      while todo != {}
        invariant todo <= active
        invariant forall id | id in active - todo ::
          !Leased(jobs[id], now) && (jobs[id].status == Cleaning || jobs[id].status == Queued)
        decreases |todo|
      {
        var id :| id in todo;
        var j := jobs[id];
        if (j.token.Some? && j.expiry.Some? && j.expiry.value > now) || (j.status != Cleaning && j.status != Queued) {
          return false;
        }
        todo := todo - {id};
      }
      return true;
    }

    /** Looks up the outstanding items: a recorded failure, and those the provider no longer holds. */
    method Inspect(rows: set<ItemKey>, cloud: set<Target>) returns (failed: bool, gone: set<ItemKey>)
      requires rows <= items.Keys
      ensures failed <==> exists k | k in rows :: items[k].status == Errored
      ensures gone == set k | k in rows && items[k].target !in cloud
    {
      failed, gone := false, {};
      var todo := rows;
      while todo != {}
        invariant todo <= rows
        invariant failed <==> exists k | k in rows - todo :: items[k].status == Errored
        invariant gone == set k | k in rows - todo && items[k].target !in cloud
        decreases |todo|
      {
        var k :| k in todo;
        ghost var before := rows - todo;
        failed := failed || items[k].status == Errored;
        gone := if items[k].target !in cloud then gone + {k} else gone;
        todo := todo - {k};
        assert rows - todo == before + {k};
      }
      assert rows - todo == rows;
    }

    /** Which jobs of a group are stale, whether their group ends, and which of their targets have vanished. */
    method Examine(v: VaultId, g: string, cloud: set<Target>, readable: bool, now: Time)
      returns (stale: set<JobId>, failed: bool, gone: set<ItemKey>)
      ensures var s := Machine(now, cloud);
        && stale == Stale(s, v, g) && gone == Vanished(s, v, g)
        && failed == Ends(s, v, g, !readable && Outstanding(s.items, stale) != {})
    {
      var active := ActiveMembers(jobs, v, g);
      var ok := Restable(active, now);
      stale := set id | id in active && ok && jobs[id].status == Cleaning;
      assert stale == Stale(Machine(now, cloud), v, g);
      var rows := Outstanding(items, stale);
      failed, gone := Inspect(rows, cloud);
      failed := failed || (!readable && rows != {});
    }

    /**
     Restart reconciliation of a deletion group. Whether it resumes or ends follows from the items: a recorded
     failure, or a provider that has to be read and cannot be, ends every job that was being cleaned.
     */
    method ReconcilePurgeGroup(v: VaultId, g: string, cloud: set<Target>, readable: bool, now: Time)
      returns (moved: nat)
      modifies this
      ensures var s := old(Machine(now, cloud));
        var step := ReconcileItems(v, g, !readable && Outstanding(s.items, Stale(s, v, g)) != {});
        && jobs == Apply(s, step).js.jobs && items == Apply(s, step).items && world == Apply(s, step).world
        && moved == |Stale(s, v, g)|
      ensures var fails := Fails(old(jobs), old(items), v, g, now, readable);
        && JobsReconciled(old(jobs), jobs, v, g, now, fails)
        && ItemsReconciled(old(jobs), old(items), items, v, g, now, cloud, fails)
    {
      ReconciledInColumns(Machine(now, cloud), v, g, readable);
      var stale, failed, gone := Examine(v, g, cloud, readable, now);
      ReconcileOutcome(Machine(now, cloud), v, g, !readable && Outstanding(items, stale) != {});
      if !failed {
        items := Mark(items, gone, Deleted);
        world := PurgeVersions(world, gone);
      }
      jobs := ReconciledJobs(jobs, stale, failed, now);
      moved := |stale|;
    }
  }

  lemma ReconcileOutcome(s: State, v: VaultId, g: string, unreadable: bool)
    ensures var s' := Apply(s, ReconcileItems(v, g, unreadable)); var failed := Ends(s, v, g, unreadable);
      && s'.js.jobs == ReconciledJobs(s.js.jobs, Stale(s, v, g), failed, s.js.now)
      && s'.items == (if failed then s.items else Mark(s.items, Vanished(s, v, g), Deleted))
      && s'.world == (if failed then s.world else PurgeVersions(s.world, Vanished(s, v, g)))
  {
    ReconciledIsStep(s.js, v, g, Ends(s, v, g, unreadable), Stale(s, v, g));
  }

  function ReconciledJobs(jobs: Jobs, stale: set<JobId>, failed: bool, now: Time): Jobs {
    map id | id in jobs ::
      if id in stale then Release(jobs[id].(status := if failed then Failed else Queued, updatedAt := now))
        else jobs[id]
  }

  lemma ReconciledIsStep(s: J.State, v: VaultId, g: string, failed: bool, stale: set<JobId>)
    requires stale == set id | id in ActiveMembers(s.jobs, v, g) && J.GroupReconcilable(s.jobs, s.now, v, g)
                               && s.jobs[id].status == Cleaning
    ensures J.Apply(s, J.ReconcileGroup(v, g, failed)).jobs == ReconciledJobs(s.jobs, stale, failed, s.now)
  {
    var jobs := ReconciledJobs(s.jobs, stale, failed, s.now);
    forall k | k in s.jobs ensures jobs[k] == J.After(s, J.ReconcileGroup(v, g, failed), k) {
      ReconciledRow(s, v, g, failed, stale, k);
    }
    SameRows(s, J.ReconcileGroup(v, g, failed), jobs);
  }

  lemma ReconciledRow(s: J.State, v: VaultId, g: string, failed: bool, stale: set<JobId>, k: JobId)
    requires stale == set id | id in ActiveMembers(s.jobs, v, g) && J.GroupReconcilable(s.jobs, s.now, v, g)
                               && s.jobs[id].status == Cleaning
    requires k in s.jobs
    ensures ReconciledJobs(s.jobs, stale, failed, s.now)[k] == J.After(s, J.ReconcileGroup(v, g, failed), k)
  {
    assert InGroup(s.jobs[k], v, g) && s.jobs[k].status == Cleaning ==> k in ActiveMembers(s.jobs, v, g);
  }
}
