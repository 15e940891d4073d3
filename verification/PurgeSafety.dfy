/**
 Safety of delayed deletion over whole runs. Nothing reaches DeleteObjects unless admission captured
 that exact target at least seven days earlier and the group was revalidated and still leased just
 before the batch; and a group revoked before it was claimed never deletes anything.
 */
module PurgeSafety {
  import opened Common
  import opened JobRows
  import J = JobSteps
  import L = JobLeases
  import opened DeletionRows
  import opened DeletionColumns
  import opened PurgeMachine

  // ----- what every step keeps -----

  /** Items are exactly what admissions captured, attached to jobs of that group and that date. */
  predicate ItemsAdmitted(s: State) {
    && s.items.Keys == s.admitted.Keys
    && forall k | k in s.items :: ItemOk(s, k)
  }

  predicate ItemOk(s: State, k: ItemKey)
    requires k in s.items && k in s.admitted
  {
    && s.items[k].target == s.admitted[k].target
    && k.job in s.js.jobs && InGroup(s.js.jobs[k.job], s.admitted[k].vault, s.admitted[k].group)
    && s.js.jobs[k.job].requestedAt == s.admitted[k].at
  }

  /** The check that stood behind a batch: consent revalidated, seven days over, group still held. */
  predicate FenceOk(f: Fence, v: VaultId, g: string, t: Token, expected: set<JobId>) {
    && Authorized(f.world, f.jobs, f.items, v, g, f.at)
    && J.HeldMembers(f.jobs, f.at, v, g, t) == expected
  }

  /** What the check read had been captured by admissions, for the groups of its jobs. */
  predicate FenceAdmitted(admitted: map<ItemKey, Admission>, f: Fence) {
    forall k | k in f.items ::
      && k in admitted && admitted[k].target == f.items[k].target
      && k.job in f.jobs && InGroup(f.jobs[k.job], admitted[k].vault, admitted[k].group)
  }

  /** A captured target whose job belongs to the claimed group and whose delay was over at `at`. */
  predicate Consented(admitted: map<ItemKey, Admission>, k: ItemKey, v: VaultId, g: string, expected: set<JobId>,
    at: Time) {
    && k in admitted && k.job in expected
    && admitted[k].vault == v && admitted[k].group == g
    && admitted[k].at + J.DELETION_DELAY <= at
  }

  predicate WorkerOk(s: State, w: Worker) {
    && w.expected <= J.Members(s.js.jobs, w.vault, w.group) && w.expected != {}
    && (forall k | k in w.remaining :: k in s.items && k.job in w.expected)
    && (w.phase.Fenced? ==>
          && w.phase.fence.at <= s.js.now && FenceOk(w.phase.fence, w.vault, w.group, w.token, w.expected)
          && FenceAdmitted(s.admitted, w.phase.fence)
          && w.phase.batch <= w.remaining && w.phase.batch <= w.phase.fence.items.Keys
          && forall k | k in w.phase.batch :: Consented(s.admitted, k, w.vault, w.group, w.expected, w.phase.fence.at))
    && (w.phase.Called? ==> w.phase.sent <= w.remaining)
  }

  ghost predicate CallOk(s: State, c: DeleteCall) {
    && c.fence.at <= c.at <= s.js.now
    && FenceOk(c.fence, c.vault, c.group, c.token, c.expected) && FenceAdmitted(s.admitted, c.fence)
    && c.expected <= J.Members(s.js.jobs, c.vault, c.group) && c.expected != {}
    && forall t | t in c.targets :: exists k :: ConsentedTo(s.admitted, k, c, t)
  }

  predicate ConsentedTo(admitted: map<ItemKey, Admission>, k: ItemKey, c: DeleteCall, t: Target) {
    Consented(admitted, k, c.vault, c.group, c.expected, c.fence.at) && admitted[k].target == t && k in c.fence.items
  }

  /** Somebody is, or has been, deleting for this group. */
  predicate TouchedBy(workers: map<nat, Worker>, log: seq<DeleteCall>, v: VaultId, g: string) {
    || (exists w | w in workers :: workers[w].vault == v && workers[w].group == g)
    || exists c | c in log :: c.vault == v && c.group == g
  }

  predicate Touched(s: State, v: VaultId, g: string) {
    TouchedBy(s.workers, s.log, v, g)
  }

  predicate DelayUntouched(s: State) {
    forall id | id in s.js.jobs ::
      s.js.jobs[id].action == CloudPurge && s.js.jobs[id].status == PendingDelay && s.js.jobs[id].group.Some?
      ==> !Touched(s, s.js.jobs[id].vault, s.js.jobs[id].group.value)
  }

  ghost predicate Safe(s: State) {
    && ItemsAdmitted(s)
    && (forall w | w in s.workers :: WorkerOk(s, s.workers[w]))
    && (forall c | c in s.log :: CallOk(s, c))
    && DelayUntouched(s)
    && L.GroupsOk(s.js)
  }

  // ----- a step only adds to the record -----

  predicate SameJob(j: Job, j': Job) {
    && j'.vault == j.vault && j'.group == j.group && j'.action == j.action && j'.requestedAt == j.requestedAt
    && (j'.status == PendingDelay ==> j.status == PendingDelay)
  }

  /** The clock moves forward, jobs keep their identity, and what was admitted stays admitted. */
  predicate Grows(s: State, s': State) {
    && s.js.now <= s'.js.now
    && (forall id | id in s.js.jobs :: id in s'.js.jobs && SameJob(s.js.jobs[id], s'.js.jobs[id]))
    && (forall k | k in s.admitted :: k in s'.admitted && s'.admitted[k] == s.admitted[k])
    && (forall k | k in s.items :: k in s'.items && s'.items[k].target == s.items[k].target)
  }

  lemma JobKept(s: State, step: Step, s': State, id: JobId)
    requires Stepped(s, step, s') && id in s.js.jobs
    ensures id in s'.js.jobs && SameJob(s.js.jobs[id], s'.js.jobs[id])
  {
    if EngineStep(s, step).Some? {
      J.RowAfter(s.js, EngineStep(s, step).value, id);
      L.IdentityKept(s.js, EngineStep(s, step).value, id);
    }
  }

  /** Outside admission, items neither appear nor disappear, and their targets never change. */
  lemma TargetsFixed(s: State, step: Step)
    requires Enabled(s, step) && !step.Admit?
    ensures NextItems(s, step).Keys == s.items.Keys && NextAdmitted(s, step) == s.admitted
    ensures forall k | k in s.items :: NextItems(s, step)[k].target == s.items[k].target
  {
  }

  lemma CapturedRow(s: State, rows: map<JobId, (FileId, string)>, k: ItemKey)
    requires k in Capture(s, rows)
    ensures k.job in rows
  {
  }

  /** Captured keys name new jobs, so no earlier item is overwritten. */
  lemma CaptureIsNew(s: State, step: Step, k: ItemKey)
    requires Enabled(s, step) && step.Admit? && ItemsAdmitted(s) && k in s.items
    ensures k !in Capture(s, step.rows)
  {
    assert ItemOk(s, k);
    if k in Capture(s, step.rows) { CapturedRow(s, step.rows, k); }
  }

  lemma AdmittedKept(s: State, step: Step, k: ItemKey)
    requires Enabled(s, step) && ItemsAdmitted(s) && k in s.admitted
    ensures k in NextAdmitted(s, step) && NextAdmitted(s, step)[k] == s.admitted[k]
    ensures k in NextItems(s, step) && NextItems(s, step)[k].target == s.items[k].target
  {
    if step.Admit? { CaptureIsNew(s, step, k); } else { TargetsFixed(s, step); }
  }

  lemma StepGrows(s: State, step: Step, s': State)
    requires Stepped(s, step, s') && ItemsAdmitted(s)
    ensures Grows(s, s')
  {
    forall id | id in s.js.jobs ensures id in s'.js.jobs && SameJob(s.js.jobs[id], s'.js.jobs[id]) {
      JobKept(s, step, s', id);
    }
    forall k | k in s.admitted
      ensures k in NextAdmitted(s, step) && NextAdmitted(s, step)[k] == s.admitted[k]
      ensures k in NextItems(s, step) && NextItems(s, step)[k].target == s.items[k].target
    {
      AdmittedKept(s, step, k);
    }
  }

  lemma MembersGrow(s: State, s': State, v: VaultId, g: string)
    requires Grows(s, s')
    ensures J.Members(s.js.jobs, v, g) <= J.Members(s'.js.jobs, v, g)
  {
  }

  // ----- items -----

  lemma NewItem(s: State, s': State, v: VaultId, g: string, origin: Origin, rows: map<JobId, (FileId, string)>,
    k: ItemKey)
    requires FreshGroup(s.js, g, rows) && k.job in rows
    requires s'.js == J.Apply(s.js, J.AdmitPurge(v, g, origin, rows))
    requires k in s'.items && k in s'.admitted && s'.admitted[k] == Admission(s'.items[k].target, s.js.now, v, g)
    ensures ItemOk(s', k)
  {
  }

  lemma OldItem(s: State, s': State, k: ItemKey)
    requires Grows(s, s') && ItemsAdmitted(s) && k in s.items && k in s'.items
    ensures k in s'.admitted && ItemOk(s', k)
  {
  }

  lemma OldItems(s: State, step: Step, s': State)
    requires Stepped(s, step, s') && ItemsAdmitted(s)
    ensures forall k | k in s.items :: k in s'.items && k in s'.admitted && ItemOk(s', k)
  {
    StepGrows(s, step, s');
    forall k | k in s.items ensures k in s'.items && k in s'.admitted && ItemOk(s', k) {
      OldItem(s, s', k);
    }
  }

  lemma CapturedItems(s: State, s': State, captured: Items, v: VaultId, g: string, origin: Origin, rows: map<JobId,
    (FileId, string)>)
    requires FreshGroup(s.js, g, rows) && forall k | k in captured :: k.job in rows
    requires s'.js == J.Apply(s.js, J.AdmitPurge(v, g, origin, rows))
    requires s'.items == s.items + captured && s'.admitted == s.admitted + Consents(captured, s.js.now, v, g)
    ensures s'.items.Keys == s.items.Keys + captured.Keys && s'.admitted.Keys == s.admitted.Keys + captured.Keys
    ensures forall k | k in captured :: ItemOk(s', k)
  {
    forall k | k in captured ensures ItemOk(s', k) {
      assert k in Consents(captured, s.js.now, v, g);
      NewItem(s, s', v, g, origin, rows, k);
    }
  }

  lemma ItemsKept(s: State, step: Step, s': State)
    requires Stepped(s, step, s') && ItemsAdmitted(s)
    ensures ItemsAdmitted(s')
  {
    OldItems(s, step, s');
    if step.Admit? {
      CaptureKeyed(s, step.rows);
      CapturedItems(s, s', Capture(s, step.rows), step.vault, step.group, step.origin, step.rows);
    } else {
      TargetsFixed(s, step);
    }
  }

  lemma CaptureKeyed(s: State, rows: map<JobId, (FileId, string)>)
    ensures forall k | k in Capture(s, rows) :: k.job in rows
  {
  }

  // ----- workers -----

  /** The facts about a worker only grow with the record. */
  lemma WorkerCarried(s: State, s': State, w: Worker)
    requires Grows(s, s') && ItemsAdmitted(s) && WorkerOk(s, w)
    ensures WorkerOk(s', w)
  {
    MembersGrow(s, s', w.vault, w.group);
    if w.phase.Fenced? { FenceCarried(s, s', w.phase.fence); }
  }

  lemma FenceCarried(s: State, s': State, f: Fence)
    requires Grows(s, s') && FenceAdmitted(s.admitted, f)
    ensures FenceAdmitted(s'.admitted, f)
  {
  }

  /** The seven days of every target in a batch are over when its authority check succeeds. */
  lemma BatchConsented(s: State, w: Worker, k: ItemKey)
    requires ItemsAdmitted(s) && WorkerOk(s, w) && k in w.remaining
    requires Ok(s, w.vault, w.group) && StillHeld(s, w)
    ensures Consented(s.admitted, k, w.vault, w.group, w.expected, s.js.now)
  {
    assert ItemOk(s, k);
    assert k.job in J.HeldMembers(s.js.jobs, s.js.now, w.vault, w.group, w.token);
    assert k.job in ActiveMembers(s.js.jobs, w.vault, w.group);
    assert DelayElapsed(s.js.jobs[k.job], s.js.now);
  }

  lemma FencedWorkerOk(s: State, wk: Worker, batch: set<ItemKey>)
    requires ItemsAdmitted(s) && WorkerOk(s, wk) && batch <= wk.remaining
    requires Ok(s, wk.vault, wk.group) && StillHeld(s, wk)
    ensures WorkerOk(s, wk.(phase := Fenced(FenceOf(s), batch)))
  {
    forall k | k in batch ensures Consented(s.admitted, k, wk.vault, wk.group, wk.expected, s.js.now) {
      BatchConsented(s, wk, k);
    }
  }

  lemma StartedWorkerOk(s: State, v: VaultId, g: string, t: Token)
    requires ItemsAdmitted(s) && Loadable(s, v, g, t)
    ensures var active := ActiveMembers(s.js.jobs, v, g);
      WorkerOk(s, Worker(v, g, t, active, Outstanding(s.items, active), Ready))
  {
  }

  lemma MovedWorkerOk(s: State, wk: Worker)
    requires WorkerOk(s, wk)
    ensures wk.phase.Fenced? ==> WorkerOk(s, wk.(phase := Called(wk.phase.batch)))
    ensures wk.phase.Called? ==> WorkerOk(s, wk.(phase := Ready, remaining := wk.remaining - wk.phase.sent))
  {
  }

  /** Where a worker of the next state comes from. */
  lemma NextWorkerIs(s: State, step: Step, w: nat)
    requires Enabled(s, step) && w in NextWorkers(s, step)
    ensures var wk := NextWorkers(s, step)[w];
      || (w in s.workers && wk == s.workers[w])
      || (w !in s.workers && Loadable(s, wk.vault, wk.group, wk.token)
          && wk == Worker(wk.vault, wk.group, wk.token, ActiveMembers(s.js.jobs, wk.vault, wk.group),
                          Outstanding(s.items, ActiveMembers(s.js.jobs, wk.vault, wk.group)), Ready))
      || (w in s.workers && step.FenceBatch? && step.w == w && step.batch <= s.workers[w].remaining
          && Ok(s, s.workers[w].vault, s.workers[w].group) && StillHeld(s, s.workers[w])
          && wk == s.workers[w].(phase := Fenced(FenceOf(s), step.batch)))
      || (w in s.workers && s.workers[w].phase.Fenced?
          && wk == s.workers[w].(phase := Called(s.workers[w].phase.batch)))
      || (w in s.workers && s.workers[w].phase.Called?
          && wk == s.workers[w].(phase := Ready, remaining := s.workers[w].remaining - s.workers[w].phase.sent))
  {
  }

  /** The worker a step leaves behind is one it found, or one it moved to its next phase. */
  lemma NextWorkerOk(s: State, step: Step, w: nat)
    requires Enabled(s, step) && ItemsAdmitted(s) && (forall i | i in s.workers :: WorkerOk(s, s.workers[i]))
    requires w in NextWorkers(s, step)
    ensures WorkerOk(s, NextWorkers(s, step)[w])
  {
    var wk := NextWorkers(s, step)[w];
    NextWorkerIs(s, step, w);
    if w !in s.workers {
      StartedWorkerOk(s, wk.vault, wk.group, wk.token);
    } else {
      assert WorkerOk(s, s.workers[w]);
      MovedWorkerOk(s, s.workers[w]);
      if wk.phase.Fenced? && wk != s.workers[w] {
        FencedWorkerOk(s, s.workers[w], step.batch);
      }
    }
  }

  // ----- the log -----

  lemma CallCarried(s: State, s': State, c: DeleteCall)
    requires Grows(s, s') && CallOk(s, c)
    ensures CallOk(s', c)
  {
    MembersGrow(s, s', c.vault, c.group);
    FenceCarried(s, s', c.fence);
    forall t | t in c.targets ensures exists k :: ConsentedTo(s'.admitted, k, c, t) {
      var k :| ConsentedTo(s.admitted, k, c, t);
      assert ConsentedTo(s'.admitted, k, c, t);
    }
  }

  function SentBy(s: State, wk: Worker): DeleteCall
    requires wk.phase.Fenced?
  {
    DeleteCall(wk.vault, wk.group, wk.token, wk.expected, s.js.now, TargetsOf(s.items, wk.phase.batch), wk.phase.fence)
  }

  lemma SentCallOk(s: State, wk: Worker)
    requires ItemsAdmitted(s) && WorkerOk(s, wk) && wk.phase.Fenced?
    ensures CallOk(s, SentBy(s, wk))
  {
    var c := SentBy(s, wk);
    forall t | t in c.targets ensures exists k :: ConsentedTo(s.admitted, k, c, t) {
      var k :| k in wk.phase.batch && k in s.items && s.items[k].target == t;
      assert ItemOk(s, k) && ConsentedTo(s.admitted, k, c, t);
    }
  }

  lemma NextCallOk(s: State, step: Step, c: DeleteCall)
    requires Enabled(s, step) && Safe(s) && c in NextLog(s, step)
    ensures CallOk(s, c)
  {
    if c !in s.log {
      assert step.Call? && c == SentBy(s, s.workers[step.w]);
      SentCallOk(s, s.workers[step.w]);
    }
  }

  // ----- waiting groups -----

  /** A step touches a group for the first time only by loading it, wholly in cleaning. */
  lemma FirstTouch(s: State, step: Step, v: VaultId, g: string, id: JobId)
    requires Enabled(s, step) && !Touched(s, v, g) && TouchedBy(NextWorkers(s, step), NextLog(s, step), v, g)
    requires id in ActiveMembers(s.js.jobs, v, g)
    ensures s.js.jobs[id].status == Cleaning
  {
  }

  /** A row that starts waiting belongs to a group nobody has ever touched. */
  lemma NewWaiterUntouched(s: State, v: VaultId, g: string, rows: map<JobId, (FileId, string)>)
    requires Safe(s) && FreshGroup(s.js, g, rows)
    ensures !Touched(s, v, g)
  {
  }

  lemma EngineMoves(s: State, step: Step, s': State)
    requires Stepped(s, step, s')
    ensures s'.js == if EngineStep(s, step).Some? then J.Apply(s.js, EngineStep(s, step).value) else s.js
  {
  }

  lemma AdmissionsAreAdmitted(s: State, step: Step)
    requires Enabled(s, step) && EngineStep(s, step).Some? && EngineStep(s, step).value.AdmitPurge?
    ensures step.Admit? && EngineStep(s, step).value == J.AdmitPurge(step.vault, step.group, step.origin, step.rows)
  {
  }

  lemma InsertedDeletion(js: J.State, e: J.Step, id: JobId)
    requires id in J.Inserted(js, e) && J.Inserted(js, e)[id].action == CloudPurge && J.Enabled(js, e)
    ensures e.AdmitPurge? && id in e.rows
    ensures J.Inserted(js, e)[id] == J.PurgeRow(js, e.vault, e.group, e.origin, e.rows[id])
  {
  }

  /** Deletion rows enter the table only through an admission of their own group. */
  lemma NewDeletionRow(s: State, step: Step, s': State, id: JobId)
    requires Stepped(s, step, s') && id in s'.js.jobs && id !in s.js.jobs
    requires s'.js.jobs[id].action == CloudPurge
    ensures step.Admit? && id in step.rows
    ensures s'.js.jobs[id] == J.PurgeRow(s.js, step.vault, step.group, step.origin, step.rows[id])
  {
    EngineMoves(s, step, s');
    EngineStepEnabled(s, step);
    J.RowInserted(s.js, EngineStep(s, step).value, id);
    InsertedDeletion(s.js, EngineStep(s, step).value, id);
    AdmissionsAreAdmitted(s, step);
  }

  lemma WaiterStaysUntouched(s: State, step: Step, id: JobId, v: VaultId, g: string)
    requires Enabled(s, step) && !Touched(s, v, g) && id in s.js.jobs
    requires InGroup(s.js.jobs[id], v, g) && s.js.jobs[id].status == PendingDelay
    ensures !TouchedBy(NextWorkers(s, step), NextLog(s, step), v, g)
  {
    if TouchedBy(NextWorkers(s, step), NextLog(s, step), v, g) { FirstTouch(s, step, v, g, id); }
  }

  lemma OldWaiterUntouched(s: State, step: Step, s': State, id: JobId, v: VaultId, g: string)
    requires Stepped(s, step, s') && DelayUntouched(s) && id in s.js.jobs
    requires InGroup(s'.js.jobs[id], v, g) && s'.js.jobs[id].status == PendingDelay
    ensures !Touched(s', v, g)
  {
    JobKept(s, step, s', id);
    WaiterStaysUntouched(s, step, id, v, g);
  }

  lemma WaiterUntouched(s: State, step: Step, s': State, id: JobId, v: VaultId, g: string)
    requires Stepped(s, step, s') && Safe(s) && id in s'.js.jobs
    requires InGroup(s'.js.jobs[id], v, g) && s'.js.jobs[id].status == PendingDelay
    ensures !Touched(s', v, g)
  {
    if id in s.js.jobs {
      OldWaiterUntouched(s, step, s', id, v, g);
    } else {
      NewDeletionRow(s, step, s', id);
      NewWaiterUntouched(s, v, g, step.rows);
    }
  }

  /** A worker that loads a group holds every unfinished job of it, and works on all its open items. */
  lemma LoadedIsHeld(s: State, step: Step, s': State, w: nat, id: JobId)
    requires Stepped(s, step, s') && w in s'.workers && w !in s.workers
    requires IsActive(s.js.jobs, s'.workers[w].vault, s'.workers[w].group, id)
    ensures var wk, j := s'.workers[w], s.js.jobs[id];
      && id in wk.expected && j.status == Cleaning && j.token == Some(wk.token)
      && j.expiry != None && j.expiry.value > s.js.now
      && forall k | k in s.items && k.job == id && s.items[k].status in {Pending, Errored} :: k in wk.remaining
  {
    NextWorkerIs(s, step, w);
    assert id in ActiveMembers(s.js.jobs, s'.workers[w].vault, s'.workers[w].group);
  }

  // ----- items of groups nobody may touch -----

  predicate ItemOf(s: State, k: ItemKey, v: VaultId, g: string) {
    k in s.items && k in s.admitted && s.admitted[k].vault == v && s.admitted[k].group == g
  }

  /** No captured target of the group has been recorded as deleted. */
  predicate Spared(s: State, v: VaultId, g: string) {
    forall k | k in s.items && ItemOf(s, k, v, g) :: s.items[k].status != Deleted
  }

  /** The group exists, nobody has loaded it, and none of its jobs is being cleaned. */
  predicate Idle(s: State, v: VaultId, g: string) {
    && J.Members(s.js.jobs, v, g) != {} && !Touched(s, v, g)
    && forall id | id in J.Members(s.js.jobs, v, g) :: s.js.jobs[id].status != Cleaning
  }

  /** Outside admission, an item becomes deleted only by being recorded so. */
  lemma OnlyRecorded(s: State, step: Step, k: ItemKey)
    requires Enabled(s, step) && !step.Admit? && k in s.items && k in NextItems(s, step)
    ensures NextItems(s, step)[k].status == Deleted ==> s.items[k].status == Deleted || k in Recorded(s, step)
  {
  }

  lemma NotSent(s: State, w: nat, id: JobId, v: VaultId, g: string)
    requires w in s.workers && WorkerOk(s, s.workers[w]) && s.workers[w].phase.Called? && !Touched(s, v, g)
    requires id in J.Members(s.js.jobs, v, g)
    ensures forall k | k in s.workers[w].phase.sent :: k.job != id
  {
    var wk := s.workers[w];
    assert !(wk.vault == v && wk.group == g);
    assert forall k | k in wk.phase.sent :: k.job in J.Members(s.js.jobs, wk.vault, wk.group);
  }

  /** Only a worker's record or a reconciliation of jobs being cleaned marks an item deleted. */
  lemma NotRecorded(s: State, step: Step, k: ItemKey, v: VaultId, g: string)
    requires Enabled(s, step) && Idle(s, v, g) && (forall w | w in s.workers :: WorkerOk(s, s.workers[w]))
    requires k.job in J.Members(s.js.jobs, v, g)
    ensures k !in Recorded(s, step)
  {
    if step.Record? {
      NotSent(s, step.w, k.job, v, g);
    }
  }

  lemma SparedItem(s: State, step: Step, k: ItemKey, v: VaultId, g: string)
    requires Enabled(s, step) && Safe(s) && Idle(s, v, g) && Spared(s, v, g) && !step.Admit? && ItemOf(s, k, v, g)
    ensures k in NextItems(s, step) && NextItems(s, step)[k].status != Deleted
  {
    TargetsFixed(s, step);
    assert ItemOk(s, k);
    OnlyRecorded(s, step, k);
    NotRecorded(s, step, k, v, g);
  }

  /** Admission captures items of its own, new group only. */
  lemma OtherAdmission(s: State, step: Step, k: ItemKey, v: VaultId, g: string)
    requires Enabled(s, step) && step.Admit? && Idle(s, v, g)
    requires k in NextItems(s, step) && k in NextAdmitted(s, step)
    requires NextAdmitted(s, step)[k].vault == v && NextAdmitted(s, step)[k].group == g
    ensures k in s.admitted && NextAdmitted(s, step)[k] == s.admitted[k] && k !in Capture(s, step.rows)
  {
    NewGroupIsOther(s, step, v, g);
  }

  lemma NewGroupIsOther(s: State, step: Step, v: VaultId, g: string)
    requires Enabled(s, step) && step.Admit? && Idle(s, v, g)
    ensures step.group != g
  {
    var id :| id in J.Members(s.js.jobs, v, g);
  }

  lemma SparedStep(s: State, step: Step, s': State, v: VaultId, g: string)
    requires Stepped(s, step, s') && Safe(s) && Idle(s, v, g) && Spared(s, v, g)
    ensures Spared(s', v, g)
  {
    forall k | k in s'.items && ItemOf(s', k, v, g) ensures s'.items[k].status != Deleted {
      if step.Admit? {
        OtherAdmission(s, step, k, v, g);
      } else {
        TargetsFixed(s, step);
        SparedItem(s, step, k, v, g);
      }
    }
  }

  /** A group that is still waiting is idle, and none of its items is deleted. */
  predicate Waiting(j: Job, v: VaultId, g: string) {
    InGroup(j, v, g) && j.status == PendingDelay
  }

  ghost predicate WaitersSpared(s: State) {
    forall id, v, g | id in s.js.jobs && Waiting(s.js.jobs[id], v, g) :: Spared(s, v, g)
  }

  lemma WaiterIsIdle(s: State, id: JobId, v: VaultId, g: string)
    requires Safe(s) && id in s.js.jobs && Waiting(s.js.jobs[id], v, g)
    ensures Idle(s, v, g)
  {
    assert id in J.Members(s.js.jobs, v, g);
    forall m | m in J.Members(s.js.jobs, v, g) ensures s.js.jobs[m].status != Cleaning {
      assert SameGroup(s.js.jobs[id], s.js.jobs[m]) && L.PairOk(s.js.jobs[id], s.js.jobs[m], s.js.now);
    }
  }

  /** No earlier item belongs to a group that is only now admitted. */
  lemma OldItemElsewhere(s: State, g: string, rows: map<JobId, (FileId, string)>, k: ItemKey)
    requires ItemsAdmitted(s) && FreshGroup(s.js, g, rows) && k in s.items
    ensures k in s.admitted && s.admitted[k].group != g && k.job in s.js.jobs
  {
    assert ItemOk(s, k);
  }

  lemma AdmittedItem(s: State, step: Step, k: ItemKey)
    requires Enabled(s, step) && step.Admit? && ItemsAdmitted(s)
    requires k in NextItems(s, step) && k in NextAdmitted(s, step) && NextAdmitted(s, step)[k].group == step.group
    ensures NextItems(s, step)[k].status == Pending
  {
    if k in s.items {
      OldItemElsewhere(s, step.group, step.rows, k);
      CaptureIsNew(s, step, k);
    }
  }

  /** The items of a group that is being admitted are new, and pending. */
  lemma AdmittedSpared(s: State, step: Step, s': State)
    requires Stepped(s, step, s') && Safe(s) && step.Admit?
    ensures Spared(s', step.vault, step.group)
  {
    forall k | k in s'.items && ItemOf(s', k, step.vault, step.group) ensures s'.items[k].status != Deleted {
      AdmittedItem(s, step, k);
    }
  }

  lemma WaitersSparedStep(s: State, step: Step, s': State)
    requires Stepped(s, step, s') && Safe(s) && WaitersSpared(s)
    ensures WaitersSpared(s')
  {
    forall id, v, g | id in s'.js.jobs && Waiting(s'.js.jobs[id], v, g) ensures Spared(s', v, g) {
      if id in s.js.jobs {
        JobKept(s, step, s', id);
        assert Waiting(s.js.jobs[id], v, g);
        WaiterIsIdle(s, id, v, g);
        SparedStep(s, step, s', v, g);
      } else {
        NewDeletionRow(s, step, s', id);
        AdmittedSpared(s, step, s');
      }
    }
  }

  // ----- over runs -----

  lemma EngineGroupsKept(s: State, step: Step, s': State)
    requires Stepped(s, step, s') && L.GroupsOk(s.js)
    ensures L.GroupsOk(s'.js)
  {
    if EngineStep(s, step).Some? {
      EngineStepEnabled(s, step);
      L.GroupsKept(s.js, EngineStep(s, step).value);
    }
  }

  lemma SafeStep(s: State, step: Step, s': State)
    requires Stepped(s, step, s') && Safe(s)
    ensures Safe(s')
  {
    StepGrows(s, step, s');
    ItemsKept(s, step, s');
    EngineGroupsKept(s, step, s');
    forall w | w in s'.workers ensures WorkerOk(s', s'.workers[w]) {
      NextWorkerOk(s, step, w);
      WorkerCarried(s, s', s'.workers[w]);
    }
    forall c | c in s'.log ensures CallOk(s', c) {
      NextCallOk(s, step, c);
      CallCarried(s, s', c);
    }
    forall id | id in s'.js.jobs && s'.js.jobs[id].action == CloudPurge && s'.js.jobs[id].status == PendingDelay &&
      s'.js.jobs[id].group.Some?
      ensures !Touched(s', s'.js.jobs[id].vault, s'.js.jobs[id].group.value)
    {
      WaiterUntouched(s, step, s', id, s'.js.jobs[id].vault, s'.js.jobs[id].group.value);
    }
  }

  lemma SafeNext(s: State, s': State)
    requires Next(s, s') && Safe(s)
    ensures Safe(s')
  {
    var step :| Stepped(s, step, s');
    SafeStep(s, step, s');
  }

  lemma {:induction false} SafeOverRuns(run: seq<State>, k: nat)
    requires |run| > 0 && Init(run[0]) && IsRun(run) && k < |run|
    ensures Safe(run[k])
  {
    if k > 0 {
      SafeOverRuns(run, k - 1);
      assert StepAt(run, k - 1);
      SafeNext(run[k - 1], run[k]);
    }
  }

  lemma WaitersSparedNext(s: State, s': State)
    requires Next(s, s') && Safe(s) && WaitersSpared(s)
    ensures WaitersSpared(s')
  {
    var step :| Stepped(s, step, s');
    WaitersSparedStep(s, step, s');
  }

  lemma {:induction false} WaitersSparedOverRuns(run: seq<State>, k: nat)
    requires |run| > 0 && Init(run[0]) && IsRun(run) && k < |run|
    ensures WaitersSpared(run[k])
  {
    if k > 0 {
      WaitersSparedOverRuns(run, k - 1);
      WaitersSparedAfter(run, k - 1);
    }
  }

  lemma WaitersSparedAfter(run: seq<State>, k: nat)
    requires |run| > 0 && Init(run[0]) && IsRun(run) && k + 1 < |run| && WaitersSpared(run[k])
    ensures WaitersSpared(run[k + 1])
  {
    SafeOverRuns(run, k);
    assert StepAt(run, k);
    WaitersSparedNext(run[k], run[k + 1]);
  }

  /** A target some admission of this very group captured, its seven days over at `at`. */
  ghost predicate Captured(s: State, t: Target, v: VaultId, g: string, at: Time) {
    exists k :: k in s.admitted && s.admitted[k] == Admission(t, s.admitted[k].at, v, g) &&
      s.admitted[k].at + 7 * 24 * 3600 <= at
  }

  /** The whole content of the file had been captured for the job by an admission of this group. */
  ghost predicate AllCaptured(s: State, w: World, v: VaultId, g: string, id: JobId, f: FileId) {
    forall r {:trigger HasContent(w, f, r)} | HasContent(w, f, r) :: CapturedFor(s, w.versions[r].target, v, g, id)
  }

  ghost predicate CapturedFor(s: State, t: Target, v: VaultId, g: string, id: JobId) {
    exists k :: k in s.admitted && k.job == id && s.admitted[k] == Admission(t, s.admitted[k].at, v, g)
  }

  /** What stands behind one target of a request: a leased job of the group whose rows all allow it. */
  ghost predicate Behind(s: State, c: DeleteCall, t: Target, k: ItemKey) {
    var f := c.fence;
    && k in f.items && f.items[k].target == t && IsActive(f.jobs, c.vault, c.group, k.job)
    && f.jobs[k.job].status == Cleaning && f.jobs[k.job].token == Some(c.token)
    && f.jobs[k.job].expiry.Some? && f.at < f.jobs[k.job].expiry.value
    && RowsAllow(f.world, f.jobs, f.items, c.vault, c.group, f.at, k.job)
    && AllCaptured(s, f.world, c.vault, c.group, k.job, f.jobs[k.job].file)
  }

  lemma CapturedAll(s: State, c: DeleteCall, id: JobId)
    requires FenceAdmitted(s.admitted, c.fence) && IsActive(c.fence.jobs, c.vault, c.group, id)
    requires NothingNew(c.fence.world, c.fence.items, id, c.fence.jobs[id].file)
    ensures AllCaptured(s, c.fence.world, c.vault, c.group, id, c.fence.jobs[id].file)
  {
    var w, f := c.fence.world, c.fence.jobs[id].file;
    forall r | r in w.versions && HasContent(w, f, r)
      ensures CapturedFor(s, w.versions[r].target, c.vault, c.group, id)
    {
      assert Covered(c.fence.items, id, w.versions[r].target);
      var k :| k in c.fence.items && k.job == id && c.fence.items[k].target == w.versions[r].target;
      assert k in s.admitted;
    }
  }

  lemma CallTarget(s: State, c: DeleteCall, t: Target) returns (k: ItemKey)
    requires CallOk(s, c) && t in c.targets
    ensures ConsentedTo(s.admitted, k, c, t) && FenceAdmitted(s.admitted, c.fence) && c.fence.at <= c.at
    ensures FenceOk(c.fence, c.vault, c.group, c.token, c.expected)
  {
    k :| ConsentedTo(s.admitted, k, c, t);
  }

  lemma ConsentIsCapture(s: State, c: DeleteCall, t: Target, k: ItemKey)
    requires ConsentedTo(s.admitted, k, c, t)
    ensures Captured(s, t, c.vault, c.group, c.fence.at)
  {
    assert k in s.admitted;
  }

  lemma FenceBehind(s: State, c: DeleteCall, t: Target, k: ItemKey)
    requires ConsentedTo(s.admitted, k, c, t) && FenceAdmitted(s.admitted, c.fence)
    requires FenceOk(c.fence, c.vault, c.group, c.token, c.expected)
    ensures Behind(s, c, t, k)
  {
    assert k.job in J.HeldMembers(c.fence.jobs, c.fence.at, c.vault, c.group, c.token);
    FenceRow(c, k.job);
    RowBehind(s, c, t, k);
  }

  lemma RowBehind(s: State, c: DeleteCall, t: Target, k: ItemKey)
    requires FenceAdmitted(s.admitted, c.fence) && ConsentedTo(s.admitted, k, c, t)
    requires IsActive(c.fence.jobs, c.vault, c.group, k.job)
    requires k.job in J.HeldMembers(c.fence.jobs, c.fence.at, c.vault, c.group, c.token)
    requires RowsAllow(c.fence.world, c.fence.jobs, c.fence.items, c.vault, c.group, c.fence.at, k.job)
    ensures Behind(s, c, t, k)
  {
    CapturedAll(s, c, k.job);
  }

  lemma FenceRow(c: DeleteCall, id: JobId)
    requires Authorized(c.fence.world, c.fence.jobs, c.fence.items, c.vault, c.group, c.fence.at)
    requires id in J.HeldMembers(c.fence.jobs, c.fence.at, c.vault, c.group, c.token)
    ensures IsActive(c.fence.jobs, c.vault, c.group, id)
    ensures RowsAllow(c.fence.world, c.fence.jobs, c.fence.items, c.vault, c.group, c.fence.at, id)
  {
    assert id in ActiveMembers(c.fence.jobs, c.vault, c.group);
    AuthorizedRow(c.fence.world, c.fence.jobs, c.fence.items, c.vault, c.group, c.fence.at, id);
  }

  /**
   Every DeleteObjects request of every run names only targets that some admission of that very group captured, at
   least seven days before the check that preceded the batch. When that check was made, the target's job was leased
   under the sender's token, and the rows said: the Vault may delete for this group, the file is proved absent from the
   disk, not held and free of other work, the row behind the target still names it, and everything the file has in the
   cloud had been captured.
   */
  lemma OnlyConsentedTargetsAreDeleted(run: seq<State>, k: nat, c: DeleteCall, t: Target)
    requires |run| > 0 && Init(run[0]) && IsRun(run) && k < |run| && c in run[k].log && t in c.targets
    ensures Captured(run[k], t, c.vault, c.group, c.fence.at) && c.fence.at <= c.at
    ensures exists key :: Behind(run[k], c, t, key)
  {
    SafeOverRuns(run, k);
    assert CallOk(run[k], c);
    var key := CallTarget(run[k], c, t);
    ConsentIsCapture(run[k], c, t, key);
    FenceBehind(run[k], c, t, key);
  }

  // ----- admissions -----

  /** One admission put this item on record: the Owner's, for a selectable file, with the target of a row it has. */
  ghost predicate AdmittedBy(s: State, step: Step, key: ItemKey, a: Admission) {
    && step.Admit? && key.job in step.rows && key.job !in s.js.jobs
    && a.at == s.js.now && a.vault == step.vault && a.group == step.group
    && step.vault in s.world.vaults && step.confirmation == s.world.vaults[step.vault].name
    && (exists c | c in step.reason :: !IsSpace(c))
    && Selectable(s.world, s.js.jobs, s.items, step.vault, step.rows[key.job].0)
    && match key.kind
       case Version =>
         HasContent(s.world, step.rows[key.job].0, key.row) && s.world.versions[key.row].target == a.target
       case DeleteMarker =>
         HasMarker(s.world, s.items, step.rows[key.job].0, key.row) && s.world.markers[key.row].target == a.target
  }

  lemma AdmittedNow(s: State, step: Step, key: ItemKey)
    requires Enabled(s, step) && key in NextAdmitted(s, step) && key !in s.admitted
    ensures AdmittedBy(s, step, key, NextAdmitted(s, step)[key])
  {
    var id :| id in step.rows && key in CapturedKeys(s.world, s.items, id, step.rows[id].0);
    AdmissibleInColumns(s.world, s.js.jobs, s.items, step.vault, step.origin, step.confirmation, step.reason,
      set i | i in step.rows :: step.rows[i].0);
    CapturedInColumns(s.world, s.items, id, step.rows[id].0, key);
  }

  ghost predicate AdmittedIn(s: State, s': State, key: ItemKey, a: Admission) {
    exists step :: Stepped(s, step, s') && AdmittedBy(s, step, key, a)
  }

  /** The item appears in step `i` of the run. */
  predicate AppearsAt(run: seq<State>, i: nat, key: ItemKey, a: Admission) {
    i + 1 < |run| && key !in run[i].admitted && key in run[i + 1].admitted && run[i + 1].admitted[key] == a
  }

  lemma AdmittedRemains(s: State, s': State, key: ItemKey)
    requires Next(s, s') && Safe(s) && key in s.admitted
    ensures key in s'.admitted && s'.admitted[key] == s.admitted[key]
  {
    var step :| Stepped(s, step, s');
    AdmittedKept(s, step, key);
  }

  lemma RemainsThen(run: seq<State>, k: nat, key: ItemKey)
    requires |run| > 0 && Init(run[0]) && IsRun(run) && k + 1 < |run| && key in run[k].admitted
    ensures key in run[k + 1].admitted && run[k + 1].admitted[key] == run[k].admitted[key]
  {
    SafeOverRuns(run, k);
    assert StepAt(run, k);
    AdmittedRemains(run[k], run[k + 1], key);
  }

  lemma {:induction false} EveryItemAppears(run: seq<State>, k: nat, key: ItemKey) returns (i: nat)
    requires |run| > 0 && Init(run[0]) && IsRun(run) && k < |run| && key in run[k].admitted
    ensures i < k && AppearsAt(run, i, key, run[k].admitted[key])
  {
    if key in run[k - 1].admitted {
      RemainsThen(run, k - 1, key);
      i := EveryItemAppears(run, k - 1, key);
    } else {
      i := k - 1;
    }
  }

  lemma AppearsByAdmission(s: State, s': State, key: ItemKey)
    requires Next(s, s') && key !in s.admitted && key in s'.admitted
    ensures AdmittedIn(s, s', key, s'.admitted[key])
  {
    var step :| Stepped(s, step, s');
    AdmittedNow(s, step, key);
  }

  /** Whatever is on record as captured was captured by an admission of this kind. */
  lemma EveryItemWasAdmitted(run: seq<State>, k: nat, key: ItemKey) returns (i: nat)
    requires |run| > 0 && Init(run[0]) && IsRun(run) && k < |run| && key in run[k].admitted
    ensures i < k && AdmittedIn(run[i], run[i + 1], key, run[k].admitted[key])
  {
    i := EveryItemAppears(run, k, key);
    assert StepAt(run, i);
    AppearsByAdmission(run[i], run[i + 1], key);
  }

  // ----- revoked groups -----

  /** A group that ended without anybody having loaded it. */
  predicate Revoked(s: State, v: VaultId, g: string) {
    && J.Members(s.js.jobs, v, g) != {} && !Touched(s, v, g)
    && forall id | id in J.Members(s.js.jobs, v, g) :: Terminal(s.js.jobs[id].status)
  }

  lemma MemberKept(s: State, step: Step, s': State, v: VaultId, g: string, id: JobId)
    requires Stepped(s, step, s') && Revoked(s, v, g) && id in J.Members(s'.js.jobs, v, g)
    ensures Terminal(s'.js.jobs[id].status)
  {
    if id in s.js.jobs {
      JobKept(s, step, s', id);
      if EngineStep(s, step).Some? {
        J.RowAfter(s.js, EngineStep(s, step).value, id);
        L.EndedRow(s.js, EngineStep(s, step).value, id);
      }
    } else {
      NewDeletionRow(s, step, s', id);
    }
  }

  /** Nothing is active in it, so no worker can load it. */
  lemma StillUntouched(s: State, step: Step, v: VaultId, g: string)
    requires Enabled(s, step) && Revoked(s, v, g)
    ensures !TouchedBy(NextWorkers(s, step), NextLog(s, step), v, g)
  {
  }

  lemma RevokedNext(s: State, s': State, v: VaultId, g: string)
    requires Next(s, s') && Revoked(s, v, g)
    ensures Revoked(s', v, g)
  {
    var step :| Stepped(s, step, s');
    StillUntouched(s, step, v, g);
    var m :| m in J.Members(s.js.jobs, v, g);
    JobKept(s, step, s', m);
    assert m in J.Members(s'.js.jobs, v, g);
    forall id | id in J.Members(s'.js.jobs, v, g) ensures Terminal(s'.js.jobs[id].status) {
      MemberKept(s, step, s', v, g, id);
    }
  }

  lemma CancelledMember(s: State, s': State, v: VaultId, g: string, id: JobId)
    requires Stepped(s, Cancel(v, g), s') && id in J.Members(s'.js.jobs, v, g)
    ensures Terminal(s'.js.jobs[id].status)
  {
  }

  lemma CancelRevokes(s: State, s': State, v: VaultId, g: string)
    requires Safe(s) && Stepped(s, Cancel(v, g), s')
    ensures Revoked(s', v, g)
  {
    var m :| m in J.Members(s.js.jobs, v, g);
    JobKept(s, Cancel(v, g), s', m);
    assert m in J.Members(s'.js.jobs, v, g);
    forall id | id in J.Members(s'.js.jobs, v, g) ensures Terminal(s'.js.jobs[id].status) {
      CancelledMember(s, s', v, g, id);
    }
  }

  /** Step `i` of the run cancels the group. */
  predicate CancelledAt(run: seq<State>, i: nat, v: VaultId, g: string) {
    i + 1 < |run| && Stepped(run[i], Cancel(v, g), run[i + 1])
  }

  lemma CancelLeavesGone(s: State, s': State, v: VaultId, g: string)
    requires Safe(s) && WaitersSpared(s) && Stepped(s, Cancel(v, g), s')
    ensures Gone(s', v, g)
  {
    CancelRevokes(s, s', v, g);
    var id :| id in J.Members(s.js.jobs, v, g);
    assert Waiting(s.js.jobs[id], v, g);
    WaiterIsIdle(s, id, v, g);
    SparedStep(s, Cancel(v, g), s', v, g);
  }

  lemma CancelRevokesInRun(run: seq<State>, i: nat, v: VaultId, g: string) returns (gone: nat)
    requires |run| > 0 && Init(run[0]) && IsRun(run) && CancelledAt(run, i, v, g)
    ensures gone == i + 1 && GoneAt(run, gone, v, g)
  {
    gone := i + 1;
    SafeOverRuns(run, i);
    WaitersSparedOverRuns(run, i);
    CancelLeavesGone(run[i], run[gone], v, g);
  }

  /** Ended before anybody loaded it, with nothing deleted. */
  ghost predicate Gone(s: State, v: VaultId, g: string) {
    Revoked(s, v, g) && Spared(s, v, g)
  }

  ghost predicate GoneAt(run: seq<State>, k: nat, v: VaultId, g: string) {
    k < |run| && Gone(run[k], v, g)
  }

  lemma GoneNext(s: State, s': State, v: VaultId, g: string)
    requires Next(s, s') && Safe(s) && Gone(s, v, g)
    ensures Gone(s', v, g)
  {
    var step :| Stepped(s, step, s');
    assert Idle(s, v, g);
    SparedStep(s, step, s', v, g);
    RevokedNext(s, s', v, g);
  }

  lemma {:induction false} GoneForever(run: seq<State>, i: nat, k: nat, v: VaultId, g: string)
    requires |run| > 0 && Init(run[0]) && IsRun(run) && i <= k < |run| && GoneAt(run, i, v, g)
    ensures GoneAt(run, k, v, g)
    decreases k
  {
    if i < k {
      GoneForever(run, i, k - 1, v, g);
      GoneAfter(run, k - 1, v, g);
    }
  }

  lemma GoneAfter(run: seq<State>, k: nat, v: VaultId, g: string)
    requires |run| > 0 && Init(run[0]) && IsRun(run) && k + 1 < |run| && GoneAt(run, k, v, g)
    ensures GoneAt(run, k + 1, v, g)
  {
    SafeOverRuns(run, k);
    assert StepAt(run, k);
    GoneNext(run[k], run[k + 1], v, g);
  }

  /**
   A group revoked while it was still waiting, by the Owner or because a file came back, has no
   target ever sent to the provider and no item ever recorded as deleted, in any continuation.
   */
  lemma RevokedGroupDeletesNothing(run: seq<State>, i: nat, k: nat, v: VaultId, g: string)
    requires |run| > 0 && Init(run[0]) && IsRun(run) && i < k < |run| && CancelledAt(run, i, v, g)
    ensures forall c | c in run[k].log :: !(c.vault == v && c.group == g)
    ensures Spared(run[k], v, g)
  {
    GoneSinceCancelled(run, i, k, v, g);
    GoneIsQuiet(run[k], v, g);
  }

  lemma GoneSinceCancelled(run: seq<State>, i: nat, k: nat, v: VaultId, g: string)
    requires |run| > 0 && Init(run[0]) && IsRun(run) && i < k < |run| && CancelledAt(run, i, v, g)
    ensures GoneAt(run, k, v, g)
  {
    var gone := CancelRevokesInRun(run, i, v, g);
    GoneForever(run, gone, k, v, g);
  }

  lemma GoneIsQuiet(s: State, v: VaultId, g: string)
    requires Gone(s, v, g)
    ensures forall c | c in s.log :: !(c.vault == v && c.group == g)
    ensures Spared(s, v, g)
  {
  }
}
